/** What a WebSocket reader makes of any frame, legal or not, and which sequences of frames it and a writer allow. */
module WsVerdicts {
  import opened Basics
  import opened Mask
  import opened Streaming
  import opened WsFrame
  import opened WsCodec

  // ---------------------------------------------------------------- any frame

  datatype Form = Short | Medium | Long

  /**
    A frame as section 5.2 of RFC 6455 lays it out: any first byte, a length in one of three forms, which need not be
    the shortest, with or without a mask.
  */
  datatype Raw = Raw(first: Byte, form: Form, mask: Option<bv32>, payload: Data)

  predicate FormFits(form: Form, len: nat) {
    match form
    case Short => len < 126
    case Medium => len < 65536
    case Long => len < TWO_64
  }

  function FormBytes(form: Form, len: nat, masked: bool): Data
    requires FormFits(form, len)
  {
    match form
    case Short => [SecondByte(len as bv8, masked)]
    case Medium => [SecondByte(126, masked)] + BigEndian(len, 2)
    case Long => [SecondByte(127, masked)] + BigEndian(len, 8)
  }

  function RawBytes(f: Raw): Data
    requires FormFits(f.form, |f.payload|)
  {
    [f.first] + FormBytes(f.form, |f.payload|, f.mask.Some?) + (KeyBytes(f.mask) + Body(f.payload, f.mask))
  }

  /** The operation codes of RFC 6455 that are not reserved, by number. */
  predicate KnownOp(code: Byte) {
    code == 0 || code == 1 || code == 2 || code == 8 || code == 9 || code == 10
  }

  lemma OpsAreKnown(code: Byte)
    ensures OpOf(code) == BadOp <==> !KnownOp(code)
    ensures KnownOp(code) ==> OpByte(OpOf(code)) == code
    ensures (OpOf(code).CloseOp? <==> code == 8) && (OpOf(code).PingOp? <==> code == 9)
    ensures OpOf(code).PongOp? <==> code == 10
  {}

  /** The verdict on a frame by its code, mask and payload; `all` is the frame and what follows. */
  function Judged(code: Byte, fin: bool, mask: Option<bv32>, payload: Data, all: Data, server: bool, max: nat,
        rest: Data): Parse
  {
    if server && mask.None? then ParseError(UnmaskedFrame, all)
    else if !server && mask.Some? then ParseError(MaskedFrame, all)
    else if !KnownOp(code) then ParseError(InvalidOpcode, all)
    else if |payload| > max then ParseError(Overflow, all)
    else if payload == [] then Parsed(fin, OpOf(code), None, rest)
    else if (code == 9 || code == 10) && |payload| > 125 then ParseError(InvalidLength, Body(payload, mask) + rest)
    else if code == 8 && |payload| > 125 then Parsed(true, CloseOp, None, Body(payload, mask) + rest)
    else Parsed(fin, OpOf(code), Some(payload), rest)
  }

  function Verdict(f: Raw, server: bool, max: nat, rest: Data): Parse
    requires FormFits(f.form, |f.payload|)
  {
    Judged(f.first & 0x0F, f.first & 0x80 != 0, f.mask, f.payload, RawBytes(f) + rest, server, max, rest)
  }

  /** What the metadata of a frame has to be read as for its verdict. */
  function Expected(code: Byte, fin: bool, mask: Option<bv32>, len: nat, idx: nat, server: bool, max: nat): Meta {
    if server && mask.None? then MetaError(UnmaskedFrame)
    else if !server && mask.Some? then MetaError(MaskedFrame)
    else if !KnownOp(code) then MetaError(InvalidOpcode)
    else if len > max then MetaError(Overflow)
    else Meta(idx, fin, OpOf(code), len, mask)
  }

  lemma FormReads(first: Byte, form: Form, len: nat, max: nat, masked: bool, rest: Data)
    requires FormFits(form, len)
    ensures var l := FormBytes(form, len, masked);
      var src := [first] + l + rest;
      && |l| >= 1 && src[0] == first && (src[1] & 0x80 != 0 <==> masked)
      && (len <= max ==> ReadLength(src, max) == Length(1 + |l|, len))
      && (len > max ==> ReadLength(src, max).LengthError? || ReadLength(src, max) == Length(1 + |l|, len))
  {
    var l := FormBytes(form, len, masked);
    var src := [first] + l + rest;
    assert src[1] == l[0];
    match form
    case Short => SmallLength(len, masked);
    case Medium =>
      SecondByteReads(126, masked);
      assert src[2..4] == BigEndian(len, 2);
      assert Pow256(2) == 65536;
      BigEndianReads(len, 2);
    case Long =>
      SecondByteReads(127, masked);
      assert src[2..10] == BigEndian(len, 8);
      assert Pow256(8) == TWO_64 by { assert Pow256(4) == 0x1_0000_0000; }
      BigEndianReads(len, 8);
  }

  lemma MetadataBy(src: Data, server: bool, max: nat, fin: bool, code: Byte, len: nat, idx: nat, mask: Option<bv32>)
    requires |src| >= 2 && (src[1] & 0x80 != 0 <==> mask.Some?)
    requires src[0] & 0x0F == code && (src[0] & 0x80 != 0 <==> fin)
    requires len <= max ==> ReadLength(src, max) == Length(idx, len)
    requires len > max ==> ReadLength(src, max).LengthError? || ReadLength(src, max) == Length(idx, len)
    requires mask.Some? ==> |src| >= idx + 4 && FromKey(src[idx..idx + 4]) == mask.value
    ensures ParseMetadata(src, server, max) ==
      Expected(code, fin, mask, len, idx + if mask.Some? then 4 else 0, server, max)
  {
    OpsAreKnown(code);
  }

  lemma RawMetadata(f: Raw, server: bool, max: nat, tail: Data)
    requires FormFits(f.form, |f.payload|)
    ensures var l := FormBytes(f.form, |f.payload|, f.mask.Some?);
      ParseMetadata([f.first] + l + (KeyBytes(f.mask) + tail), server, max) ==
      Expected(f.first & 0x0F, f.first & 0x80 != 0, f.mask, |f.payload|, 1 + |l| + |KeyBytes(f.mask)|, server, max)
  {
    var l := FormBytes(f.form, |f.payload|, f.mask.Some?);
    var src := [f.first] + l + (KeyBytes(f.mask) + tail);
    FormReads(f.first, f.form, |f.payload|, max, f.mask.Some?, KeyBytes(f.mask) + tail);
    if f.mask.Some? {
      assert src[1 + |l|..1 + |l| + 4] == MaskKey(f.mask.value);
      KeyReads(f.mask.value);
    }
    MetadataBy(src, server, max, f.first & 0x80 != 0, f.first & 0x0F, |f.payload|, 1 + |l|, f.mask);
  }

  lemma BodyVerdict(src: Data, m: Meta, server: bool, max: nat, payload: Data, rest: Data)
    requires ParseMetadata(src, server, max) == m && m.Meta? && m.len == |payload| && m.idx <= |src|
    requires src[m.idx..] == Body(payload, m.mask) + rest
    ensures ParseFrame(src, server, max) ==
      if payload == [] then Parsed(m.fin, m.op, None, rest)
      else if (m.op.PingOp? || m.op.PongOp?) && |payload| > 125 then
        ParseError(InvalidLength, Body(payload, m.mask) + rest)
      else if m.op.CloseOp? && |payload| > 125 then Parsed(true, CloseOp, None, Body(payload, m.mask) + rest)
      else Parsed(m.fin, m.op, Some(payload), rest)
  {
    var body := Body(payload, m.mask);
    assert (body + rest)[..|payload|] == body && (body + rest)[|payload|..] == rest;
    if m.mask.Some? {
      MaskedTwice(payload, m.mask.value);
    }
    if payload == [] {
      assert body + rest == rest;
    }
  }

  lemma JudgedBy(src: Data, code: Byte, fin: bool, mask: Option<bv32>, payload: Data, idx: nat, server: bool, max: nat,
        rest: Data)
    requires ParseMetadata(src, server, max) == Expected(code, fin, mask, |payload|, idx, server, max)
    requires idx <= |src| && src[idx..] == Body(payload, mask) + rest
    ensures ParseFrame(src, server, max) == Judged(code, fin, mask, payload, src, server, max, rest)
  {
    OpsAreKnown(code);
    var m := ParseMetadata(src, server, max);
    if m.Meta? {
      BodyVerdict(src, m, server, max, payload, rest);
    }
  }

  /** Every frame that can be laid out, in either role and with anything behind it, gets this verdict. */
  lemma FrameVerdict(f: Raw, server: bool, max: nat, rest: Data)
    requires FormFits(f.form, |f.payload|)
    ensures ParseFrame(RawBytes(f) + rest, server, max) == Verdict(f, server, max, rest)
  {
    var l, body, src := FormBytes(f.form, |f.payload|, f.mask.Some?), Body(f.payload, f.mask), RawBytes(f) + rest;
    Laid([f.first] + l, KeyBytes(f.mask), body, rest);
    RawMetadata(f, server, max, body + rest);
    JudgedBy(src, f.first & 0x0F, f.first & 0x80 != 0, f.mask, f.payload, 1 + |l| + |KeyBytes(f.mask)|, server, max,
             rest);
  }

  lemma Laid(a: Data, b: Data, c: Data, d: Data)
    ensures a + (b + c) + d == a + (b + (c + d))
  {}

  /** The shortest form a length has. */
  function Shortest(len: nat): Form {
    if len < 126 then Short else if len < 65536 then Medium else Long
  }

  /** What is written is the frame that was asked for, with no reserved bit set and its length in the shortest form. */
  lemma WrittenIsShortest(payload: Data, op: OpCode, fin: bool, mask: Option<bv32>)
    requires |payload| < TWO_64
    ensures WriteMessage(payload, op, fin, mask) ==
      RawBytes(Raw(if fin then 0x80 | OpByte(op) else OpByte(op), Shortest(|payload|), mask, payload))
  {
    var first, l := FirstByte(op, fin), LengthBytes(|payload|, mask.Some?);
    if mask.Some? {
      Assoc([first], l, MaskKey(mask.value) + Masked(payload, mask.value));
    } else {
      assert [] + payload == payload;
    }
  }

  /** As long as a frame that will be accepted is not there in full, the reader waits. */
  lemma PartWaits(f: Raw, server: bool, max: nat, a: Data, b: Data)
    requires FormFits(f.form, |f.payload|) && a + b == RawBytes(f) && b != []
    requires Verdict(f, server, max, []).Parsed? && Verdict(f, server, max, []).rest == []
    ensures ParseFrame(a, server, max).ParsePartial?
  {
    FrameVerdict(f, server, max, []);
    assert RawBytes(f) + [] == RawBytes(f);
    if !ParseFrame(a, server, max).ParsePartial? {
      ParseStable(a, b, server, max);
    }
  }

  // ---------------------------------------------------------------- sequences of frames

  /** What counts of a frame in a sequence. */
  datatype Step = Step(op: OpCode, fin: bool)

  /** The first part of a message in several. */
  predicate Opens(s: Step) {
    (s.op.TextOp? || s.op.BinaryOp?) && !s.fin
  }

  predicate Closes(s: Step) {
    s.op.ContinueOp? && s.fin
  }

  /** A message in several parts was begun and its last part has not come. */
  ghost predicate OpenIn(steps: seq<Step>) {
    exists i :: 0 <= i < |steps| && Opens(steps[i]) && forall j :: i < j < |steps| ==> !Closes(steps[j])
  }

  /** Step `k` may follow those before it: parts only inside a message, no new one inside another, closes are whole. */
  ghost predicate LegalAt(steps: seq<Step>, k: nat)
    requires k < |steps|
  {
    var s := steps[k];
    && s.op != BadOp
    && (s.op.ContinueOp? ==> OpenIn(steps[..k]))
    && (Opens(s) ==> !OpenIn(steps[..k]))
    && (s.op.CloseOp? ==> s.fin)
  }

  ghost predicate Legal(steps: seq<Step>) {
    forall k :: 0 <= k < |steps| ==> LegalAt(steps, k)
  }

  lemma OpenLast(steps: seq<Step>, s: Step)
    ensures OpenIn(steps + [s]) <==> Opens(s) || (OpenIn(steps) && !Closes(s))
  {
    var more := steps + [s];
    assert more[|steps|] == s && forall i :: 0 <= i < |steps| ==> more[i] == steps[i];
    if OpenIn(more) && !Opens(s) {
      var i :| 0 <= i < |more| && Opens(more[i]) && forall j :: i < j < |more| ==> !Closes(more[j]);
      assert Opens(steps[i]) && forall j :: i < j < |steps| ==> !Closes(more[j]);
    }
    if OpenIn(steps) && !Closes(s) {
      var i :| 0 <= i < |steps| && Opens(steps[i]) && forall j :: i < j < |steps| ==> !Closes(steps[j]);
      assert Opens(more[i]);
    }
    if Opens(s) {
      assert Opens(more[|steps|]);
    }
  }

  lemma LegalLast(steps: seq<Step>, s: Step)
    ensures Legal(steps + [s]) <==> Legal(steps) && LegalAt(steps + [s], |steps|)
  {
    var more := steps + [s];
    forall k | 0 <= k < |steps| ensures LegalAt(more, k) <==> LegalAt(steps, k) {
      assert more[..k] == steps[..k];
    }
  }

  /** A parsed frame: its step and its payload. */
  datatype Frame = Frame(step: Step, payload: Option<Data>)

  function StepsOf(fs: seq<Frame>): seq<Step> {
    Map((f: Frame) => f.step, fs)
  }

  /** The reader behind a list of frames, if it refused none of them. */
  function Reader(c: Codec, fs: seq<Frame>): Option<Codec> {
    if fs == [] then Some(c)
    else
      var before, f := Reader(c, fs[..|fs| - 1]), fs[|fs| - 1];
      if before.None? then None
      else
        var (o, c1) := Handle(before.value, f.step.fin, f.step.op, f.payload);
        if o.Failed? then None else Some(c1)
  }

  lemma HandleAllows(c: Codec, f: Frame, open: bool)
    requires c.reading == open
    ensures var (o, c1) := Handle(c, f.step.fin, f.step.op, f.payload);
      var s := f.step;
      && (!o.Failed? <==>
            s.op != BadOp && (s.op.ContinueOp? ==> open) && (Opens(s) ==> !open) && (s.op.CloseOp? ==> s.fin))
      && (!o.Failed? ==> (c1.reading <==> Opens(s) || (open && !Closes(s))))
  {}

  /** A reader takes a list of frames exactly if each may follow those before it. */
  lemma {:induction false} ReaderAllowsLegal(c: Codec, fs: seq<Frame>)
    requires !c.reading
    ensures Reader(c, fs).Some? <==> Legal(StepsOf(fs))
    ensures Reader(c, fs).Some? ==> (Reader(c, fs).value.reading <==> OpenIn(StepsOf(fs)))
  {
    if fs != [] {
      var before, f := fs[..|fs| - 1], fs[|fs| - 1];
      var steps := StepsOf(before);
      ReaderAllowsLegal(c, before);
      assert StepsOf(fs) == steps + [f.step];
      assert (steps + [f.step])[..|steps|] == steps;
      LegalLast(steps, f.step);
      OpenLast(steps, f.step);
      if Reader(c, before).Some? {
        HandleAllows(Reader(c, before).value, f, OpenIn(steps));
      }
    }
  }

  function StepOf(p: Posted): Step {
    Step(FrameOf(p.m).op, FrameOf(p.m).fin)
  }

  lemma EncodeAllows(w: Codec, p: Posted, open: bool)
    requires w.writing == open
    ensures var (s, e) := (StepOf(p), Encode(w, p.m, p.mask));
      && (e.Wrote? <==> (s.op.ContinueOp? ==> open) && (Opens(s) ==> !open))
      && (e.Wrote? ==> (e.codec.writing <==> Opens(s) || (open && !Closes(s))))
      && s.op != BadOp && (s.op.CloseOp? ==> s.fin)
  {}

  lemma {:induction false} WriterKeepsLegal(w: Codec, items: seq<Posted>)
    requires !w.writing
    ensures Legal(Map(StepOf, Kept(w, items)))
    ensures After(w, items).writing <==> OpenIn(Map(StepOf, Kept(w, items)))
  {
    if items != [] {
      var before, p := items[..|items| - 1], items[|items| - 1];
      WriterKeepsLegal(w, before);
      var steps := Map(StepOf, Kept(w, before));
      EncodeAllows(After(w, before), p, OpenIn(steps));
      if Accepts(After(w, before), p.m) {
        MapLast(StepOf, Kept(w, before), p);
        assert (steps + [StepOf(p)])[..|steps|] == steps;
        LegalLast(steps, StepOf(p));
        OpenLast(steps, StepOf(p));
      } else {
        assert Kept(w, before) + [] == Kept(w, before);
      }
    }
  }

  /** A writer refuses a message exactly if it may not follow those it has accepted. */
  lemma WriterAllowsLegal(w: Codec, items: seq<Posted>, p: Posted)
    requires !w.writing
    ensures var steps := Map(StepOf, Kept(w, items));
      && Legal(steps)
      && (Encode(After(w, items), p.m, p.mask).Wrote? <==> Legal(steps + [StepOf(p)]))
  {
    WriterKeepsLegal(w, items);
    var steps := Map(StepOf, Kept(w, items));
    EncodeAllows(After(w, items), p, OpenIn(steps));
    assert (steps + [StepOf(p)])[..|steps|] == steps;
    LegalLast(steps, StepOf(p));
  }
}
