/** The WebSocket codec and transport as objects whose flags and buffers change in place. */
module WsObjects {
  import opened Basics
  import opened Mask
  import opened Streaming
  import opened WsFrame
  import C = WsCodec
  import T = WsTransport

  /** Masks a copy of `data` that lies at any address. */
  method MaskCopy(data: Data, address: nat, mask: bv32) returns (r: Data)
    ensures r == Masked(data, mask)
  {
    var buf := new Byte[|data|](i requires 0 <= i < |data| => data[i]);
    assert buf[..] == data;
    ApplyMask(buf, address, mask);
    r := buf[..];
  }

  /** `Parser::parse`: the frame is taken off the buffer and unmasked in place. */
  method ParseBuf(src: Data, address: nat, server: bool, max: nat) returns (r: Parse)
    ensures r == ParseFrame(src, server, max)
  {
    var meta := ParseMetadata(src, server, max);
    match meta {
      case MetaPartial => return ParsePartial;
      case MetaError(e) => return ParseError(e, src);
      case Meta(idx, fin, op, len, mask) =>
        if |src| < idx + len {
          return ParsePartial;
        }
        var body := src[idx..];
        if len == 0 {
          return Parsed(fin, op, None, body);
        }
        if (op == PingOp || op == PongOp) && len > 125 {
          return ParseError(InvalidLength, body);
        }
        if op == CloseOp && len > 125 {
          return Parsed(true, CloseOp, None, body);
        }
        var payload := body[..len];
        if mask.Some? {
          payload := MaskCopy(payload, address, mask.value);
        }
        return Parsed(fin, op, Some(payload), body[len..]);
    }
  }

  method LengthField(len: nat, masked: bool) returns (l: Data)
    ensures l == LengthBytes(len, masked)
  {
    if len < 126 {
      l := [SecondByte(len as bv8, masked)];
    } else if len <= 65535 {
      l := [SecondByte(126, masked)] + BigEndian(len, 2);
    } else {
      l := [SecondByte(127, masked)] + BigEndian(len, 8);
    }
  }

  /** `Parser::write_message`: the bytes are appended piece by piece. */
  method WriteFrame(dst0: Data, payload: Data, address: nat, op: OpCode, fin: bool, mask: Option<bv32>)
    returns (dst: Data)
    ensures dst == dst0 + WriteMessage(payload, op, fin, mask)
  {
    var first := [FirstByte(op, fin)];
    var len := LengthField(|payload|, mask.Some?);
    dst := dst0 + first + len;
    if mask.Some? {
      var buf := MaskCopy(payload, address, mask.value);
      dst := dst + MaskKey(mask.value) + buf;
      Assoc5(dst0, first, len, MaskKey(mask.value), buf);
    } else {
      dst := dst + payload;
      Assoc5(dst0, first, len, payload, []);
      assert payload + [] == payload && dst + [] == dst;
    }
  }

  lemma Assoc5<T>(a: seq<T>, b: seq<T>, c: seq<T>, d: seq<T>, e: seq<T>)
    ensures a + b + c + d + e == a + (b + c + (d + e))
  {}

  class Codec {
    const server: bool
    const maxSize: nat
    var reading: bool
    var writing: bool
    var closed: bool

    constructor (server: bool, maxSize: nat)
      ensures View() == C.Codec(server, maxSize, false, false, false)
    {
      this.server, this.maxSize := server, maxSize;
      reading, writing, closed := false, false, false;
    }

    function View(): C.Codec
      reads this
    {
      C.Codec(server, maxSize, reading, writing, closed)
    }

    /** The frame of a message that is not refused. */
    method Put(dst0: Data, m: C.Message, mask: bv32, address: nat) returns (dst: Data)
      ensures var f := C.FrameOf(m);
        dst == dst0 + WriteMessage(f.payload, f.op, f.fin, if server then None else Some(mask))
    {
      var f := C.FrameOf(m);
      dst := WriteFrame(dst0, f.payload, address, f.op, f.fin, if server then None else Some(mask));
    }

    /** `encodev` */
    method Encodev(dst0: Data, m: C.Message, mask: bv32, address: nat) returns (error: Option<Error>, dst: Data)
      modifies this
      ensures var e := C.Encode(old(View()), m, mask);
        if e.Wrote? then error.None? && View() == e.codec && dst == dst0 + e.bytes
        else error == Some(e.error) && View() == old(View()) && dst == dst0
    {
      dst := dst0;
      if m.Close? {
        closed := true;
      } else if m.Continuation? {
        if m.item.FirstText? || m.item.FirstBinary? {
          if writing {
            return Some(ContinuationStarted), dst;
          }
          writing := true;
        } else {
          if !writing {
            return Some(ContinuationNotStarted), dst;
          }
          if m.item.Last? {
            writing := false;
          }
        }
      }
      dst := Put(dst0, m, mask, address);
      error := None;
    }

    /** `decode` */
    method Decode(src: Data, address: nat) returns (outcome: Outcome<C.Message, Error>, rest: Data)
      modifies this
      ensures Called(outcome, View(), rest) == C.Decode(old(View()), src)
    {
      var p := ParseBuf(src, address, server, maxSize);
      match p {
        case ParsePartial => return Waiting, src;
        case ParseError(e, r) => return Failed(e), r;
        case Parsed(fin, op, payload, r) =>
          rest := r;
          outcome := Take(fin, op, payload);
      }
    }

    /** The continuation rules of `decode`. */
    method Take(fin: bool, op: OpCode, payload: Option<Data>) returns (outcome: Outcome<C.Message, Error>)
      modifies this
      ensures (outcome, View()) == C.Handle(old(View()), fin, op, payload)
    {
      var data := if payload.Some? then payload.value else [];
      match op {
        case ContinueOp =>
          if !reading {
            return Failed(ContinuationNotStarted);
          }
          if fin {
            reading := false;
            return Got(C.Continuation(C.Last(data)));
          }
          return Got(C.Continuation(C.Continue(data)));
        case TextOp =>
          if fin {
            return Got(C.Text(data));
          }
          if reading {
            return Failed(ContinuationStarted);
          }
          reading := true;
          return Got(C.Continuation(C.FirstText(data)));
        case BinaryOp =>
          if fin {
            return Got(C.Binary(data));
          }
          if reading {
            return Failed(ContinuationStarted);
          }
          reading := true;
          return Got(C.Continuation(C.FirstBinary(data)));
        case CloseOp =>
          if !fin {
            return Failed(ContinuationFragment);
          }
          return Got(C.Close(if payload.Some? then C.ReadClose(payload.value) else None));
        case PingOp => return Got(C.Ping(data));
        case PongOp => return Got(C.Pong(data));
        case BadOp => return Failed(InvalidOpcode);
      }
    }
  }

  class Transport {
    const codec: Codec
    var closed: bool
    var cont: bool
    var protoErr: bool
    var readBuf: Data
    var wire: Data

    constructor (codec: Codec)
      ensures this.codec == codec && View() == T.Transport(codec.View(), false, false, false)
      ensures readBuf == [] && wire == []
    {
      this.codec := codec;
      closed, cont, protoErr := false, false, false;
      readBuf, wire := [], [];
    }

    function View(): T.Transport
      reads this, codec
    {
      T.Transport(codec.View(), closed, cont, protoErr)
    }

    /** `process_read_buf`: the loop over the frames in the buffer; pings are answered on the wire, in order. */
    method ProcessReadBuf(masks: nat -> bv32) returns (out: Data, replies: seq<C.Message>, next: T.Next)
      requires T.Shrinks(C.Decode)
      modifies this, codec
      ensures T.Read(View(), readBuf, out, replies, next) == T.ReadLoop(C.Decode, old(View()), old(readBuf))
      ensures wire == old(wire) + T.SentBytes(codec.server, T.ReplyItems(replies, masks, 0))
    {
      out, replies, next := [], [], T.Go;
      var more := true;
      ghost var whole := T.ReadLoop(C.Decode, View(), readBuf);
      T.NoReplies(codec.server, masks, 0);
      while more
        invariant more ==> T.Before(whole, out, replies, T.ReadLoop(C.Decode, View(), readBuf))
        invariant !more ==> whole == T.Read(View(), readBuf, out, replies, next)
        invariant wire == old(wire) + T.SentBytes(codec.server, T.ReplyItems(replies, masks, 0))
        decreases |readBuf| + if more then 1 else 0
      {
        ghost var was := wire;
        var add, reply;
        more, add, reply, next := Iteration(masks, |replies|);
        T.BeforeMore(whole, out, replies, add, reply);
        T.RepliesGrow(old(wire), codec.server, replies, reply, masks, was, wire);
        out := out + add;
        replies := replies + reply;
      }
    }

    /** One turn of the loop, behind `n` replies. */
    method Iteration(masks: nat -> bv32, n: nat) returns (more: bool, out: Data, replies: seq<C.Message>, next: T.Next)
      requires T.Shrinks(C.Decode)
      modifies this, codec
      ensures var was := T.ReadLoop(C.Decode, old(View()), old(readBuf));
        if more then |readBuf| < |old(readBuf)| && T.Before(was, out, replies, T.ReadLoop(C.Decode, View(), readBuf))
        else was == T.Read(View(), readBuf, out, replies, next)
      ensures |readBuf| <= |old(readBuf)|
      ensures wire == old(wire) + T.SentBytes(codec.server, T.ReplyItems(replies, masks, n))
    {
      assert T.ShrinksAt(C.Decode, codec.View(), readBuf);
      out, replies, next := [], [], T.Go;
      T.NoReplies(codec.server, masks, n);
      var outcome, rest := codec.Decode(readBuf, 0);
      readBuf := rest;
      more := false;
      match outcome {
        case Waiting =>
        case Failed(_) => protoErr, next := true, T.Fail(T.BadFrames);
        case Got(frame) =>
          out, replies, next := Frame(frame, masks, n);
          more := next.Go?;
      }
    }

    /** What the loop does with one frame. */
    method Frame(frame: C.Message, masks: nat -> bv32, n: nat)
      returns (out: Data, replies: seq<C.Message>, next: T.Next)
      modifies this, codec
      ensures T.Effect(View(), out, replies, next) == T.OnFrame(old(View()), frame)
      ensures readBuf == old(readBuf)
      ensures wire == old(wire) + T.SentBytes(codec.server, T.ReplyItems(replies, masks, n))
    {
      out, replies, next := [], [], T.Go;
      T.NoReplies(codec.server, masks, n);
      match frame {
        case Binary(d) => out := d;
        case Continuation(FirstBinary(d)) =>
          cont := true;
          out := d;
        case Continuation(Continue(d)) =>
          if cont {
            out := d;
          } else {
            protoErr, next := true, T.Fail(T.NotStarted);
          }
        case Continuation(Last(d)) =>
          if cont {
            out := d;
            cont := false;
          } else {
            protoErr, next := true, T.Fail(T.NotStarted);
          }
        case Continuation(FirstText(_)) => protoErr, next := true, T.Fail(T.TextFrame);
        case Text(_) => protoErr, next := true, T.Fail(T.TextFrame);
        case Ping(d) =>
          replies := [C.Pong(d)];
          Answer(C.Pong(d), masks(n));
          T.OneReply(codec.server, C.Pong(d), masks, n);
        case Pong(_) =>
        case Close(_) => next := T.StopReading;
      }
    }

    /** The answer to a ping. */
    method Answer(m: C.Message, mask: bv32)
      requires m.Pong?
      modifies this`wire, codec
      ensures codec.View() == old(codec.View())
      ensures wire == old(wire) + T.PostedBytes(codec.server, C.Posted(m, mask))
    {
      var error;
      error, wire := codec.Encodev(wire, m, mask, |wire|);
    }

    /** `shutdown`: one close frame, sent once. */
    method Shutdown(mask: bv32)
      modifies this, codec
      ensures if old(closed) then View() == old(View()) && wire == old(wire)
        else
          var m := T.Closing(old(View()));
          && View() == old(View()).(closed := true, codec := C.Written(old(codec.View()), m))
          && wire == old(wire) + T.PostedBytes(codec.server, C.Posted(m, mask))
    {
      if !closed {
        closed := true;
        var reason := C.Reason(if protoErr then C.Protocol else C.Normal, None);
        var error;
        error, wire := codec.Encodev(wire, C.Close(Some(reason)), mask, |wire|);
      }
    }

    /** `Codec::encode_page` */
    method PutPage(dst0: Data, page: T.Page) returns (dst: Data)
      ensures dst == dst0 + T.PostedBytes(codec.server, T.PageMessage(page))
    {
      dst := WriteFrame(dst0, page.data, |dst0|, BinaryOp, true, if codec.server then None else Some(page.mask));
    }

    /** `process_write_buf` */
    method ProcessWriteBuf(pages: seq<T.Page>)
      modifies this`wire
      ensures wire == old(wire) + T.SentBytes(codec.server, T.PageItems(pages))
    {
      assert T.SentBytes(codec.server, T.PageItems(pages[..0])) == [];
      for i := 0 to |pages|
        invariant wire == old(wire) + T.SentBytes(codec.server, T.PageItems(pages[..i]))
      {
        ghost var was := wire;
        wire := PutPage(wire, pages[i]);
        T.SentGrows(old(wire), codec.server, T.PageItems(pages[..i]), T.PageMessage(pages[i]), was, wire);
        assert T.PageItems(pages[..i + 1]) == T.PageItems(pages[..i]) + [T.PageMessage(pages[i])];
      }
      assert pages[..|pages|] == pages;
    }
  }
}
