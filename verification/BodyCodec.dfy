/** The payload decoder and the transfer encoder as the objects of the source. */
module BodyCodec {
  import opened Basics
  import opened Payload
  import opened Transfer

  /** `PayloadDecoder`; `src` is passed in and its remainder handed back. */
  class PayloadDecoder {
    var kind: Kind

    constructor (kind: Kind)
      ensures this.kind == kind
    {
      this.kind := kind;
    }

    method Decode(src: Bytes) returns (r: Decoded, rest: Bytes)
      modifies this
      ensures (r, kind, rest) == Payload.Decode(old(kind), src)
    {
      match kind {
        case Length(remaining) =>
          if remaining == 0 {
            return EndOfPayload, src;
          }
          if src == [] {
            return NeedMore, src;
          }
          if remaining > |src| {
            kind := Length(remaining - |src|);
            return Chunk(src), [];
          }
          kind := Length(0);
          return Chunk(src[..remaining]), src[remaining..];
        case UntilClose =>
          if src == [] {
            return NeedMore, src;
          }
          return Chunk(src), [];
        case Chunked(state0, size0) =>
          var state, size := state0, size0;
          rest := src;
          while true
            invariant DecodeChunked(state, size, rest) == DecodeChunked(state0, size0, src)
            decreases |rest|
          {
            match ChunkStep(state, size, rest) {
              case Pending =>
                kind := Chunked(state, size);
                return NeedMore, rest;
              case Error(rest') =>
                kind := Chunked(state, size);
                return Invalid, rest';
              case Next(state', size', rest', out) =>
                if state' == End {
                  kind := Chunked(End, size');
                  return EndOfPayload, rest';
                }
                if out.Some? {
                  kind := Chunked(state', size');
                  return Chunk(out.value), rest';
                }
                if rest' == [] {
                  kind := Chunked(state', size');
                  return NeedMore, rest';
                }
                state, size, rest := state', size', rest';
            }
          }
      }
    }
  }

  /** `TransferEncoding`; `buf` is the output buffer, given back with what was appended. */
  class TransferEncoding {
    var kind: Encoding

    constructor (kind: Encoding)
      ensures this.kind == kind
    {
      this.kind := kind;
    }

    method Encode(msg: Bytes, buf: Bytes) returns (eof: bool, buf': Bytes)
      modifies this
      ensures var (e, out, done) := EncodePart(old(kind), msg);
        kind == e && buf' == buf + out && eof == done
    {
      buf' := buf;
      match kind {
        case CloseOut =>
          if msg != [] {
            buf' := buf' + msg;
          }
          eof := msg == [];
        case ChunkedOut(closed) =>
          if closed {
            return true, buf';
          }
          if msg == [] {
            buf' := buf' + LAST_CHUNK;
            kind := ChunkedOut(true);
            eof := true;
          } else {
            buf' := buf' + Hex(|msg|) + CRLF;
            buf' := buf' + msg;
            buf' := buf' + CRLF;
            assert buf' == buf + (Hex(|msg|) + CRLF + msg + CRLF);
            eof := false;
          }
        case LengthOut(remaining) =>
          if remaining > 0 {
            if msg == [] {
              return false, buf';
            }
            var len := if remaining < |msg| then remaining else |msg|;
            buf' := buf' + msg[..len];
            kind := LengthOut(remaining - len);
            eof := remaining == len;
          } else {
            eof := true;
          }
      }
    }

    method Eof(buf: Bytes) returns (ok: bool, buf': Bytes)
      modifies this
      ensures var (e, out, done) := EncodeEof(old(kind));
        kind == e && buf' == buf + out && ok == done
    {
      buf' := buf;
      match kind {
        case CloseOut => ok := true;
        case LengthOut(remaining) => ok := remaining == 0;
        case ChunkedOut(closed) =>
          if !closed {
            buf' := buf' + LAST_CHUNK;
            kind := ChunkedOut(true);
          }
          ok := true;
      }
    }
  }
}
