/**
 `encode` and `decode` as the program runs them: a writer that appends field by field, leaves room
 for a frame's length and fills it in when the frame is closed, and a reader that advances an
 iterator and may stop half way with an exception (`None`).
 */
module Codec {
  import opened Bytes
  import opened Wire

  /** An append-only buffer list. */
  class BufferList {
    var bytes: seq<byte>

    constructor ()
      ensures bytes == []
    {
      bytes := [];
    }

    method Append(s: seq<byte>)
      modifies this
      ensures bytes == old(bytes) + s
    {
      bytes := bytes + s;
    }

    method PutString(s: seq<byte>)
      modifies this
      ensures bytes == old(bytes) + EncodeString(s)
    {
      var len := |s| % TWO32;
      Append(ToLE(len, 4));
      Append(s[..len]);
    }

    /** Opens a frame, leaving its length blank; yields where the header stands. */
    method Start() returns (mark: nat)
      modifies this
      ensures mark == |old(bytes)| && bytes == old(bytes) + FrameHeader(0)
    {
      mark := |bytes|;
      Append(FrameHeader(0));
    }

    /** Closes the frame opened at `mark`: writes the length of everything appended since. */
    method Finish(mark: nat, ghost before: seq<byte>, ghost payload: seq<byte>)
      requires mark == |before| && bytes == before + FrameHeader(0) + payload
      modifies this
      ensures bytes == before + Frame(payload)
    {
      var len := |bytes| - mark - HEADER;
      bytes := bytes[..mark + 2] + ToLE(len, 4) + bytes[mark + HEADER..];
    }

    method PutInfo(i: CacheInfo)
      modifies this
      ensures bytes == old(bytes) + Frame(InfoPayload(i))
    {
      var mark := Start();
      PutInfoFields(i);
      Finish(mark, old(bytes), InfoPayload(i));
    }

    method PutInfoFields(i: CacheInfo)
      modifies this
      ensures bytes == old(bytes) + InfoPayload(i)
    {
      ghost var id, size := ToLE(i.cacheId, 4), ToLE(i.cacheSize, 8);
      ghost var pool, image := EncodeString(i.pool), EncodeString(i.image);
      Append(ToLE(i.cacheId, 4));
      Append(ToLE(i.cacheSize, 8));
      PutString(i.pool);
      PutString(i.image);
      ConcatAssociates(old(bytes), id, size);
      ConcatAssociates(old(bytes) + id + size, pool, image);
      ConcatAssociates(old(bytes) + id, size, pool + image);
      ConcatAssociates(old(bytes), id, size + (pool + image));
    }

    method PutDesc(d: ConfigDescriptor)
      modifies this
      ensures bytes == old(bytes) + Frame(DescPayload(d))
    {
      var mark := Start();
      PutDescFields(d);
      Finish(mark, old(bytes), DescPayload(d));
    }

    method PutDescFields(d: ConfigDescriptor)
      modifies this
      ensures bytes == old(bytes) + DescPayload(d)
    {
      ghost var mr, pcfg := ToLE(d.mrDescSize, 4), ToLE(d.pcfgDescSize, 4);
      Append(ToLE(d.mrDescSize, 4));
      Append(ToLE(d.pcfgDescSize, 4));
      PutString(d.descriptors);
      ConcatAssociates(old(bytes) + mr, pcfg, EncodeString(d.descriptors));
      ConcatAssociates(old(bytes), mr, pcfg + EncodeString(d.descriptors));
    }

    /** The type, then what the message class adds to its base class. */
    method PutPayload(m: Message)
      modifies this
      ensures bytes == old(bytes) + Payload(m)
    {
      Append(EncodeInt(m.ty));
      ghost var typed := bytes;
      match m {
        case Plain(_) =>
        case Init(_, i) => PutInfo(i);
        case Reply(_, d) => PutDesc(d);
      }
      assert bytes == typed + Body(m);
      ConcatAssociates(old(bytes), EncodeInt(m.ty), Body(m));
    }

    /** `encode` of each message class. */
    method PutMessage(m: Message)
      modifies this
      ensures bytes == old(bytes) + Encode(m)
    {
      var mark := Start();
      PutPayload(m);
      Finish(mark, old(bytes), Payload(m));
    }
  }

  /** A reader that yielded `got` and stands at `off` did what the specification says. */
  ghost predicate Yields<T>(spec: Parsed<T>, got: Option<T>, off: nat) {
    match got
    case None => spec == Fail
    case Some(v) => spec == Ok(v, off)
  }

  /** A read position in a fixed buffer. */
  class Iterator {
    const buf: seq<byte>
    var off: nat

    constructor (buf: seq<byte>)
      ensures this.buf == buf && off == 0
    {
      this.buf := buf;
      off := 0;
    }

    method GetU32() returns (r: Option<u32>)
      modifies this
      ensures Yields(DecodeU32(buf, old(off)), r, off)
    {
      PowersOf256();
      if off + 4 > |buf| {
        return None;
      }
      r := Some(FromLE(buf[off..off + 4]));
      off := off + 4;
    }

    method GetU64() returns (r: Option<u64>)
      modifies this
      ensures Yields(DecodeU64(buf, old(off)), r, off)
    {
      PowersOf256();
      if off + 8 > |buf| {
        return None;
      }
      r := Some(FromLE(buf[off..off + 8]));
      off := off + 8;
    }

    method GetInt() returns (r: Option<i32>)
      modifies this
      ensures Yields(DecodeInt(buf, old(off)), r, off)
    {
      var n :- GetU32();
      r := Some(if n < 0x8000_0000 then n else n - TWO32);
    }

    method GetString() returns (r: Option<seq<byte>>)
      modifies this
      ensures Yields(DecodeString(buf, old(off)), r, off)
    {
      var len :- GetU32();
      if off + len > |buf| {
        return None;
      }
      r := Some(buf[off..off + len]);
      off := off + len;
    }

    /** Reads a frame header; yields where the frame ends. */
    method Start() returns (end: Option<nat>)
      modifies this
      ensures Yields(OpenFrame(buf, old(off)), end, if end.Some? then off else 0)
    {
      if off + HEADER > |buf| || buf[off + 1] > 1 {
        return None;
      }
      var len := FromLE(buf[off + 2..off + 6]);
      off := off + HEADER;
      if off + len > |buf| {
        return None;
      }
      end := Some(off + len);
    }

    /** Skips to the frame's end, or fails when it was overrun. */
    method Finish(end: nat) returns (r: Option<()>)
      modifies this
      ensures r.Some? <==> old(off) <= end
      ensures r.Some? ==> off == end
    {
      if off > end {
        return None;
      }
      off := end;
      r := Some(());
    }

    method GetInfo() returns (r: Option<CacheInfo>)
      modifies this
      ensures Yields(DecodeInfo(buf, old(off)), r, off)
    {
      var end :- Start();
      var id :- GetU32();
      var size :- GetU64();
      var pool :- GetString();
      var image :- GetString();
      var _ :- Finish(end);
      r := Some(CacheInfo(id, size, pool, image));
    }

    method GetDesc() returns (r: Option<ConfigDescriptor>)
      modifies this
      ensures Yields(DecodeDesc(buf, old(off)), r, off)
    {
      var end :- Start();
      var mr :- GetU32();
      var pcfg :- GetU32();
      var ds :- GetString();
      var _ :- Finish(end);
      r := Some(ConfigDescriptor(mr, pcfg, ds));
    }

    method GetPlain() returns (r: Option<i32>)
      modifies this
      ensures Yields(DecodePlain(buf, old(off)), r, off)
    {
      var end :- Start();
      var ty :- GetInt();
      var _ :- Finish(end);
      r := Some(ty);
    }

    method GetInit() returns (r: Option<Message>)
      modifies this
      ensures Yields(DecodeInit(buf, old(off)), r, off)
    {
      var end :- Start();
      var ty :- GetInt();
      var info :- GetInfo();
      var _ :- Finish(end);
      r := Some(Init(ty, info));
    }

    method GetReply() returns (r: Option<Message>)
      modifies this
      ensures Yields(DecodeReply(buf, old(off)), r, off)
    {
      var end :- Start();
      var ty :- GetInt();
      var desc :- GetDesc();
      var _ :- Finish(end);
      r := Some(Reply(ty, desc));
    }
  }

  /** `memcpy` to the front of a fixed buffer. */
  method CopyIn(dst: array<byte>, src: seq<byte>)
    requires |src| <= dst.Length
    modifies dst
    ensures dst[..] == Overwrite(old(dst[..]), src)
  {
    for i := 0 to |src|
      invariant dst[..i] == src[..i]
      invariant dst[i..] == old(dst[i..])
    {
      dst[i] := src[i];
    }
  }
}
