/** Numbers below 256 and bytes. */
module ByteNumbers {
  lemma ByteBack(n: nat)
    requires n < 256
    ensures (n as bv8) as nat == n
  {}

  lemma SmallByte(n: nat)
    requires n < 126
    ensures (n as bv8) as nat == n && (n as bv8) < 126
  {}
}

/** WebSocket frames on the wire (`ws/frame.rs`, `ws/proto.rs`; section 5.2 of RFC 6455). */
module WsFrame {
  import opened Basics
  import opened ByteNumbers
  import opened Mask

  // ---------------------------------------------------------------- opcodes and numbers

  datatype OpCode = ContinueOp | TextOp | BinaryOp | CloseOp | PingOp | PongOp | BadOp

  function OpByte(op: OpCode): Byte {
    match op
    case ContinueOp => 0
    case TextOp => 1
    case BinaryOp => 2
    case CloseOp => 8
    case PingOp => 9
    case PongOp => 10
    case BadOp => 8
  }

  function OpOf(b: Byte): OpCode {
    if b == 0 then ContinueOp else if b == 1 then TextOp else if b == 2 then BinaryOp
    else if b == 8 then CloseOp else if b == 9 then PingOp else if b == 10 then PongOp
    else BadOp
  }

  function FirstByte(op: OpCode, fin: bool): Byte {
    if fin then 0x80 | OpByte(op) else OpByte(op)
  }

  lemma FirstByteReads(op: OpCode, fin: bool)
    requires op != BadOp
    ensures (FirstByte(op, fin) & 0x80 != 0) <==> fin
    ensures OpOf(FirstByte(op, fin) & 0x0F) == op
  {}

  function SecondByte(len: Byte, masked: bool): Byte {
    (if masked then 0x80 else 0) | len
  }

  lemma SecondByteReads(len: Byte, masked: bool)
    requires len & 0x80 == 0
    ensures (SecondByte(len, masked) & 0x80 != 0) <==> masked
    ensures SecondByte(len, masked) & 0x7F == len
  {}

  function Pow256(k: nat): nat {
    if k == 0 then 1 else 256 * Pow256(k - 1)
  }

  /** `n` in `k` bytes, most significant first. */
  function BigEndian(n: nat, k: nat): (s: Data)
    ensures |s| == k
  {
    if k == 0 then [] else BigEndian(n / 256, k - 1) + [(n % 256) as bv8]
  }

  function FromBigEndian(s: Data): nat {
    if s == [] then 0 else FromBigEndian(s[..|s| - 1]) * 256 + s[|s| - 1] as nat
  }

  lemma {:induction false} BigEndianReads(n: nat, k: nat)
    requires n < Pow256(k)
    ensures FromBigEndian(BigEndian(n, k)) == n
  {
    if k > 0 {
      BigEndianReads(n / 256, k - 1);
      assert BigEndian(n, k)[..k - 1] == BigEndian(n / 256, k - 1);
      ByteBack(n % 256);
    }
  }

  /** A mask from its four bytes. */
  function FromKey(key: Data): bv32
    requires |key| == 4
  {
    (key[0] as bv32) | ((key[1] as bv32) << 8) | ((key[2] as bv32) << 16) | ((key[3] as bv32) << 24)
  }

  lemma KeyReads(mask: bv32)
    ensures FromKey(MaskKey(mask)) == mask
  {}

  // ---------------------------------------------------------------- writing

  const TWO_64: nat := 0x1_0000_0000_0000_0000

  function LengthBytes(len: nat, masked: bool): Data
  {
    if len < 126 then [SecondByte(len as bv8, masked)]
    else if len <= 65535 then [SecondByte(126, masked)] + BigEndian(len, 2)
    else [SecondByte(127, masked)] + BigEndian(len, 8)
  }

  /** `write_message`; a mask is the random number drawn when the payload is masked. */
  function WriteMessage(payload: Data, op: OpCode, fin: bool, mask: Option<bv32>): Data {
    [FirstByte(op, fin)] + LengthBytes(|payload|, mask.Some?)
    + if mask.Some? then MaskKey(mask.value) + Masked(payload, mask.value) else payload
  }

  // ---------------------------------------------------------------- reading

  datatype Error = UnmaskedFrame | MaskedFrame | InvalidOpcode | Overflow | InvalidLength
                 | ContinuationNotStarted | ContinuationStarted | ContinuationFragment

  datatype Meta = MetaPartial | MetaError(error: Error)
                | Meta(idx: nat, fin: bool, op: OpCode, len: nat, mask: Option<bv32>)

  /** The length of the payload and the number of bytes up to its end. */
  datatype Length = LengthPartial | LengthError | Length(idx: nat, len: nat)

  function ReadLength(src: Data, max: nat): Length
    requires |src| >= 2
  {
    var len := src[1] & 0x7F;
    if len == 126 then
      if |src| < 4 then LengthPartial else Length(4, FromBigEndian(src[2..4]))
    else if len == 127 then
      if |src| < 10 then LengthPartial
      else if FromBigEndian(src[2..10]) > max then LengthError
      else Length(10, FromBigEndian(src[2..10]))
    else Length(2, len as nat)
  }

  /** `parse_metadata` */
  function ParseMetadata(src: Data, server: bool, max: nat): Meta {
    if |src| < 2 then MetaPartial
    else
      var masked := src[1] & 0x80 != 0;
      if !masked && server then MetaError(UnmaskedFrame)
      else if masked && !server then MetaError(MaskedFrame)
      else
        var op := OpOf(src[0] & 0x0F);
        if op == BadOp then MetaError(InvalidOpcode)
        else
          match ReadLength(src, max)
          case LengthPartial => MetaPartial
          case LengthError => MetaError(Overflow)
          case Length(idx, len) =>
            var fin := src[0] & 0x80 != 0;
            if len > max then MetaError(Overflow)
            else if !server then Meta(idx, fin, op, len, None)
            else if |src| < idx + 4 then MetaPartial
            else Meta(idx + 4, fin, op, len, Some(FromKey(src[idx..idx + 4])))
  }

  datatype Parse = ParsePartial | ParseError(error: Error, rest: Data)
                 | Parsed(fin: bool, op: OpCode, payload: Option<Data>, rest: Data)

  /** `parse` */
  function ParseFrame(src: Data, server: bool, max: nat): Parse {
    match ParseMetadata(src, server, max)
    case MetaPartial => ParsePartial
    case MetaError(e) => ParseError(e, src)
    case Meta(idx, fin, op, len, mask) =>
      if |src| < idx + len then ParsePartial
      else
        var body := src[idx..];
        if len == 0 then Parsed(fin, op, None, body)
        else if (op.PingOp? || op.PongOp?) && len > 125 then ParseError(InvalidLength, body)
        else if op.CloseOp? && len > 125 then Parsed(true, CloseOp, None, body)
        else Parsed(fin, op, Some(if mask.Some? then Masked(body[..len], mask.value) else body[..len]), body[len..])
  }

  // ---------------------------------------------------------------- more input changes nothing that was decided

  lemma ReadLengthStable(a: Data, b: Data, max: nat)
    requires |a| >= 2 && !ReadLength(a, max).LengthPartial?
    ensures ReadLength(a + b, max) == ReadLength(a, max)
  {
    if |a| >= 10 {
      assert (a + b)[2..10] == a[2..10];
    }
    if |a| >= 4 {
      assert (a + b)[2..4] == a[2..4];
    }
  }

  lemma MetadataStable(a: Data, b: Data, server: bool, max: nat)
    requires !ParseMetadata(a, server, max).MetaPartial?
    ensures ParseMetadata(a + b, server, max) == ParseMetadata(a, server, max)
  {
    assert (a + b)[0] == a[0] && (a + b)[1] == a[1];
    if !ReadLength(a, max).LengthPartial? {
      ReadLengthStable(a, b, max);
      var l := ReadLength(a, max);
      if l.Length? && |a| >= l.idx + 4 {
        assert (a + b)[l.idx..l.idx + 4] == a[l.idx..l.idx + 4];
      }
    }
  }

  lemma ParseStable(a: Data, b: Data, server: bool, max: nat)
    requires !ParseFrame(a, server, max).ParsePartial?
    ensures var r := ParseFrame(a, server, max); ParseFrame(a + b, server, max) == r.(rest := r.rest + b)
  {
    MetadataStable(a, b, server, max);
    var m := ParseMetadata(a, server, max);
    if m.Meta? {
      assert (a + b)[m.idx..] == a[m.idx..] + b;
      assert (a[m.idx..] + b)[..m.len] == a[m.idx..][..m.len];
      assert (a[m.idx..] + b)[m.len..] == a[m.idx..][m.len..] + b;
    }
  }

  // ---------------------------------------------------------------- one frame there and back

  lemma LengthReads(first: Byte, len: nat, max: nat, masked: bool, rest: Data)
    requires len <= max < TWO_64
    ensures var l := LengthBytes(len, masked);
      var src := [first] + l + rest;
      && |l| >= 1 && (src[1] & 0x80 != 0 <==> masked)
      && ReadLength(src, max) == Length(1 + |l|, len)
  {
    var l := LengthBytes(len, masked);
    var src := [first] + l + rest;
    assert src[1] == l[0];
    if len < 126 {
      SmallLength(len, masked);
    } else if len <= 65535 {
      SecondByteReads(126, masked);
      assert src[2..4] == BigEndian(len, 2);
      assert Pow256(2) == 65536;
      BigEndianReads(len, 2);
    } else {
      SecondByteReads(127, masked);
      assert src[2..10] == BigEndian(len, 8);
      assert Pow256(8) == TWO_64 by { assert Pow256(4) == 0x1_0000_0000; }
      BigEndianReads(len, 8);
    }
  }

  lemma SmallBits(b: Byte)
    requires b < 126
    ensures b & 0x80 == 0 && b != 126 && b != 127
  {}

  lemma SmallLength(len: nat, masked: bool)
    requires len < 126
    ensures var two := SecondByte(len as bv8, masked);
      (two & 0x80 != 0 <==> masked) && two & 0x7F != 126 && two & 0x7F != 127 && (two & 0x7F) as nat == len
  {
    SmallByte(len);
    SmallBits(len as bv8);
    SecondByteReads(len as bv8, masked);
  }

  function KeyBytes(mask: Option<bv32>): Data {
    if mask.Some? then MaskKey(mask.value) else []
  }

  function Body(payload: Data, mask: Option<bv32>): (body: Data)
    ensures |body| == |payload|
  {
    if mask.Some? then Masked(payload, mask.value) else payload
  }

  lemma MetadataReads(op: OpCode, fin: bool, len: nat, mask: Option<bv32>, max: nat, tail: Data)
    requires op != BadOp && len <= max < TWO_64
    ensures var l := LengthBytes(len, mask.Some?);
      ParseMetadata([FirstByte(op, fin)] + l + (KeyBytes(mask) + tail), mask.Some?, max) ==
      Meta(1 + |l| + |KeyBytes(mask)|, fin, op, len, mask)
  {
    FirstByteReads(op, fin);
    LengthReads(FirstByte(op, fin), len, max, mask.Some?, KeyBytes(mask) + tail);
    var l := LengthBytes(len, mask.Some?);
    var src := [FirstByte(op, fin)] + l + (KeyBytes(mask) + tail);
    if mask.Some? {
      assert src[1 + |l|..1 + |l| + 4] == MaskKey(mask.value);
      KeyReads(mask.value);
    }
  }

  lemma BodyReads(src: Data, m: Meta, server: bool, max: nat, payload: Data, rest: Data)
    requires ParseMetadata(src, server, max) == m && m.Meta? && m.len == |payload| && m.idx <= |src|
    requires src[m.idx..] == Body(payload, m.mask) + rest
    requires m.op.PingOp? || m.op.PongOp? || m.op.CloseOp? ==> |payload| <= 125
    ensures ParseFrame(src, server, max) == Parsed(m.fin, m.op, if payload == [] then None else Some(payload), rest)
  {
    var body := Body(payload, m.mask);
    assert (body + rest)[..|payload|] == body && (body + rest)[|payload|..] == rest;
    if m.mask.Some? {
      MaskedTwice(payload, m.mask.value);
    }
  }

  /** What one side writes, the other side reads, and what follows stays. */
  lemma FrameRoundTrip(payload: Data, op: OpCode, fin: bool, mask: Option<bv32>, max: nat, rest: Data)
    requires op != BadOp && |payload| <= max < TWO_64
    requires op.PingOp? || op.PongOp? || op.CloseOp? ==> |payload| <= 125
    ensures ParseFrame(WriteMessage(payload, op, fin, mask) + rest, mask.Some?, max) ==
      Parsed(fin, op, if payload == [] then None else Some(payload), rest)
  {
    var body := Body(payload, mask);
    var len := LengthBytes(|payload|, mask.Some?);
    var src := WriteMessage(payload, op, fin, mask) + rest;
    assert src == [FirstByte(op, fin)] + len + (KeyBytes(mask) + (body + rest));
    MetadataReads(op, fin, |payload|, mask, max, body + rest);
    BodyReads(src, Meta(1 + |len| + |KeyBytes(mask)|, fin, op, |payload|, mask), mask.Some?, max, payload, rest);
  }
}
