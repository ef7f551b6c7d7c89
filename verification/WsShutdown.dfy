/** How a WebSocket transport ends: the code of its close, and when it closes the connection, over every run. */
module WsShutdown {
  import opened Basics
  import opened Mask
  import opened Streaming
  import opened WsFrame
  import opened WsCodec
  import opened WsTransport

  /** How call `i` of the read loop went. */
  ghost predicate Went(dec: FrameDecoder, c: Codec, evs: seq<Event>, i: nat, next: Next -> bool)
    requires Shrinks(dec) && i < |evs|
  {
    evs[i].Process? && var s := RunFrom(dec, c, evs[..i]); next(ReadLoop(dec, s.t, s.buf).next)
  }

  function IsFail(): Next -> bool {
    (n: Next) => n.Fail?
  }

  function IsStop(): Next -> bool {
    (n: Next) => n.StopReading?
  }

  /** Some call of the read loop went like that. */
  ghost predicate EverWent(dec: FrameDecoder, c: Codec, evs: seq<Event>, next: Next -> bool)
    requires Shrinks(dec)
  {
    exists i :: 0 <= i < |evs| && Went(dec, c, evs, i, next)
  }

  lemma EverLast(dec: FrameDecoder, c: Codec, evs: seq<Event>, next: Next -> bool)
    requires Shrinks(dec) && evs != []
    ensures var n := |evs| - 1;
      EverWent(dec, c, evs, next) <==> EverWent(dec, c, evs[..n], next) || Went(dec, c, evs, n, next)
  {
    var n := |evs| - 1;
    forall i | 0 <= i < n ensures Went(dec, c, evs, i, next) <==> Went(dec, c, evs[..n], i, next) {
      assert evs[..n][..i] == evs[..i];
    }
    if EverWent(dec, c, evs, next) {
      var i :| 0 <= i < |evs| && Went(dec, c, evs, i, next);
      assert i < n ==> Went(dec, c, evs[..n], i, next);
    }
    if EverWent(dec, c, evs[..n], next) {
      var i :| 0 <= i < n && Went(dec, c, evs[..n], i, next);
      assert Went(dec, c, evs, i, next);
    }
  }

  lemma {:induction false} LoopErrs(dec: FrameDecoder, t: Transport, src: Data)
    requires Shrinks(dec) && !t.protoErr
    ensures var r := ReadLoop(dec, t, src); r.t.protoErr <==> r.next.Fail?
    decreases |src|
  {
    assert ShrinksAt(dec, t.codec, src);
    var c := dec(t.codec, src);
    if c.outcome.Got? {
      var e := OnFrame(t.(codec := c.state), c.outcome.frame);
      if e.next.Go? {
        LoopErrs(dec, e.t, c.rest);
      }
    }
  }

  /** The transport knows of a protocol error exactly if a call of the read loop failed. */
  lemma {:induction false} ErrorIffFailed(dec: FrameDecoder, c: Codec, evs: seq<Event>)
    requires Shrinks(dec)
    ensures RunFrom(dec, c, evs).t.protoErr <==> EverWent(dec, c, evs, IsFail())
  {
    if evs != [] {
      var before := evs[..|evs| - 1];
      ErrorIffFailed(dec, c, before);
      EverLast(dec, c, evs, IsFail());
      var s := RunFrom(dec, c, before);
      if evs[|evs| - 1].Process? {
        if s.t.protoErr {
          ErrorStays(dec, s.t, s.buf);
        } else {
          LoopErrs(dec, s.t, s.buf);
        }
      }
    }
  }

  /** The connection is closed exactly if a call of the read loop met a close frame. */
  lemma {:induction false} ClosedIffStopped(dec: FrameDecoder, c: Codec, evs: seq<Event>)
    requires Shrinks(dec)
    ensures RunFrom(dec, c, evs).ioClosed <==> EverWent(dec, c, evs, IsStop())
  {
    if evs != [] {
      ClosedIffStopped(dec, c, evs[..|evs| - 1]);
      EverLast(dec, c, evs, IsStop());
    }
  }

  predicate ShutBefore(evs: seq<Event>) {
    exists i :: 0 <= i < |evs| && evs[i].Shutdown?
  }

  lemma {:induction false} ClosedIsShut(dec: FrameDecoder, c: Codec, evs: seq<Event>)
    requires Shrinks(dec)
    ensures RunFrom(dec, c, evs).t.closed <==> ShutBefore(evs)
  {
    if evs != [] {
      var before, ev := evs[..|evs| - 1], evs[|evs| - 1];
      ClosedIsShut(dec, c, before);
      var s := RunFrom(dec, c, before);
      if ev.Process? {
        LoopKeepsClosed(dec, s.t, s.buf);
      }
      assert forall i :: 0 <= i < |before| ==> before[i] == evs[i];
      if ShutBefore(before) {
        var i :| 0 <= i < |before| && before[i].Shutdown?;
        assert evs[i].Shutdown?;
      }
    }
  }

  lemma {:induction false} LoopKeepsClosed(dec: FrameDecoder, t: Transport, src: Data)
    requires Shrinks(dec)
    ensures ReadLoop(dec, t, src).t.closed == t.closed
    decreases |src|
  {
    assert ShrinksAt(dec, t.codec, src);
    var c := dec(t.codec, src);
    if c.outcome.Got? {
      var e := OnFrame(t.(codec := c.state), c.outcome.frame);
      if e.next.Go? {
        LoopKeepsClosed(dec, e.t, c.rest);
      }
    }
  }

  /**
    In every run the first shutdown sends one close without a description, with code 1002 exactly if a call of the
    read loop has failed before and 1000 otherwise; later ones send nothing.
  */
  lemma CloseTells(dec: FrameDecoder, c: Codec, evs: seq<Event>, mask: bv32)
    requires Shrinks(dec)
    ensures var (s, t) := (RunFrom(dec, c, evs), RunFrom(dec, c, evs + [Shutdown(mask)]));
      if ShutBefore(evs) then t == s
      else
        && |t.sent| == |s.sent| + 1 && t.sent[..|s.sent|] == s.sent
        && var m := t.sent[|s.sent|].m;
           m.Close? && m.reason.Some? && m.reason.value.description.None?
           && CodeNumber(m.reason.value.code) == if EverWent(dec, c, evs, IsFail()) then 1002 else 1000
  {
    assert (evs + [Shutdown(mask)])[..|evs|] == evs;
    ErrorIffFailed(dec, c, evs);
    ClosedIsShut(dec, c, evs);
  }
}
