/**
 The wire format of the replica protocol: what `encode` appends and what `decode` accepts.

 Every structure is framed: one version byte, one compatibility byte, a 32-bit little-endian
 payload length, then the payload.  A reader refuses a compatibility byte above its own version
 and a length that runs past the buffer; when it has read the fields it knows it skips to the
 frame's end, and it fails if it already stands beyond that end.  Strings carry a 32-bit length.
 */
module Wire {
  import opened Bytes

  const MSG_SIZE: nat := 4096
  const HEADER: nat := 6
  const TWO32: nat := 0x1_0000_0000

  const INIT_REQUEST: i32 := 0x1
  const INIT_SUCCEEDED: i32 := 0x11
  const INIT_FAILED: i32 := 0x12
  const FINISHED_REQUEST: i32 := 0x2
  const FINISHED_SUCCEEDED: i32 := 0x21
  const FINISHED_FAILED: i32 := 0x22

  datatype CacheInfo = CacheInfo(cacheId: u32, cacheSize: u64, pool: seq<byte>, image: seq<byte>)

  datatype ConfigDescriptor = ConfigDescriptor(mrDescSize: u32, pcfgDescSize: u32, descriptors: seq<byte>)

  /** The message classes.  `Plain` is the base class, and the FINISHED request and reply, which add nothing. */
  datatype Message =
    | Plain(ty: i32)
    | Init(ty: i32, info: CacheInfo)
    | Reply(ty: i32, desc: ConfigDescriptor)

  /** What a decoder yields: the value and the offset it stopped at, or an exception. */
  datatype Parsed<+T> = Fail | Ok(value: T, next: nat)

  // ---------------------------------------------------------------- encoding

  function EncodeInt(t: i32): (s: seq<byte>)
    ensures |s| == 4
  {
    ToLE(if t < 0 then t + TWO32 else t, 4)
  }

  /** The length is stored in 32 bits, and only that many bytes of the string follow it. */
  function EncodeString(s: seq<byte>): seq<byte> {
    ToLE(|s| % TWO32, 4) + s[..|s| % TWO32]
  }

  function FrameHeader(len: nat): (s: seq<byte>)
    ensures |s| == HEADER
  {
    [1, 1] + ToLE(len, 4)
  }

  function Frame(payload: seq<byte>): (s: seq<byte>)
    ensures |s| == HEADER + |payload|
  {
    FrameHeader(|payload|) + payload
  }

  function InfoPayload(i: CacheInfo): seq<byte> {
    ToLE(i.cacheId, 4) + (ToLE(i.cacheSize, 8) + (EncodeString(i.pool) + EncodeString(i.image)))
  }

  function DescPayload(d: ConfigDescriptor): seq<byte> {
    ToLE(d.mrDescSize, 4) + (ToLE(d.pcfgDescSize, 4) + EncodeString(d.descriptors))
  }

  function Body(m: Message): seq<byte> {
    match m
    case Plain(_) => []
    case Init(_, i) => Frame(InfoPayload(i))
    case Reply(_, d) => Frame(DescPayload(d))
  }

  function Payload(m: Message): seq<byte> {
    EncodeInt(m.ty) + Body(m)
  }

  function Encode(m: Message): seq<byte> {
    Frame(Payload(m))
  }

  // ---------------------------------------------------------------- decoding

  function TakeNat(buf: seq<byte>, off: nat, width: nat): (r: Parsed<nat>)
    ensures r.Ok? ==> r.next == off + width && r.value < Pow256(width)
  {
    if off + width <= |buf| then Ok(FromLE(buf[off..off + width]), off + width) else Fail
  }

  function DecodeU32(buf: seq<byte>, off: nat): (r: Parsed<u32>)
    ensures r.Ok? ==> r.next == off + 4
  {
    PowersOf256();
    match TakeNat(buf, off, 4)
    case Fail => Fail
    case Ok(n, next) => Ok(n, next)
  }

  function DecodeU64(buf: seq<byte>, off: nat): (r: Parsed<u64>)
    ensures r.Ok? ==> r.next == off + 8
  {
    PowersOf256();
    match TakeNat(buf, off, 8)
    case Fail => Fail
    case Ok(n, next) => Ok(n, next)
  }

  function DecodeInt(buf: seq<byte>, off: nat): (r: Parsed<i32>)
    ensures r.Ok? ==> r.next == off + 4
  {
    match DecodeU32(buf, off)
    case Fail => Fail
    case Ok(n, next) => Ok(if n < 0x8000_0000 then n else n - TWO32, next)
  }

  function DecodeString(buf: seq<byte>, off: nat): (r: Parsed<seq<byte>>)
    ensures r.Ok? ==> r.next == off + 4 + |r.value|
  {
    match DecodeU32(buf, off)
    case Fail => Fail
    case Ok(len, next) => if next + len <= |buf| then Ok(buf[next..next + len], next + len) else Fail
  }

  /** Opens a frame: yields the offset where it ends and where its payload starts. */
  function OpenFrame(buf: seq<byte>, off: nat): (r: Parsed<nat>)
    ensures r.Ok? ==> r.next == off + HEADER <= r.value <= |buf|
  {
    if off + HEADER > |buf| || buf[off + 1] > 1 then Fail
    else
      var len := FromLE(buf[off + 2..off + 6]);
      if off + HEADER + len > |buf| then Fail else Ok(off + HEADER + len, off + HEADER)
  }

  /** Closes a frame whose fields were read up to `next`. */
  function CloseFrame<T>(value: T, next: nat, end: nat): Parsed<T> {
    if next > end then Fail else Ok(value, end)
  }

  function DecodeInfo(buf: seq<byte>, off: nat): (r: Parsed<CacheInfo>)
    ensures r.Ok? ==> r.next >= off + HEADER
  {
    match OpenFrame(buf, off)
    case Fail => Fail
    case Ok(end, p0) =>
      match DecodeU32(buf, p0)
      case Fail => Fail
      case Ok(id, p1) =>
        match DecodeU64(buf, p1)
        case Fail => Fail
        case Ok(size, p2) =>
          match DecodeString(buf, p2)
          case Fail => Fail
          case Ok(pool, p3) =>
            match DecodeString(buf, p3)
            case Fail => Fail
            case Ok(image, p4) => CloseFrame(CacheInfo(id, size, pool, image), p4, end)
  }

  function DecodeDesc(buf: seq<byte>, off: nat): (r: Parsed<ConfigDescriptor>)
    ensures r.Ok? ==> r.next >= off + HEADER
  {
    match OpenFrame(buf, off)
    case Fail => Fail
    case Ok(end, p0) =>
      match DecodeU32(buf, p0)
      case Fail => Fail
      case Ok(mr, p1) =>
        match DecodeU32(buf, p1)
        case Fail => Fail
        case Ok(pcfg, p2) =>
          match DecodeString(buf, p2)
          case Fail => Fail
          case Ok(ds, p3) => CloseFrame(ConfigDescriptor(mr, pcfg, ds), p3, end)
  }

  /** `RwlReplicaRequest::decode`: the base class, and so the FINISHED request and reply. */
  function DecodePlain(buf: seq<byte>, off: nat): Parsed<i32> {
    match OpenFrame(buf, off)
    case Fail => Fail
    case Ok(end, p0) =>
      match DecodeInt(buf, p0)
      case Fail => Fail
      case Ok(ty, p1) => CloseFrame(ty, p1, end)
  }

  function DecodeInit(buf: seq<byte>, off: nat): (r: Parsed<Message>)
    ensures r.Ok? ==> r.value.Init?
  {
    match OpenFrame(buf, off)
    case Fail => Fail
    case Ok(end, p0) =>
      match DecodeInt(buf, p0)
      case Fail => Fail
      case Ok(ty, p1) =>
        match DecodeInfo(buf, p1)
        case Fail => Fail
        case Ok(info, p2) => CloseFrame(Init(ty, info), p2, end)
  }

  function DecodeReply(buf: seq<byte>, off: nat): (r: Parsed<Message>)
    ensures r.Ok? ==> r.value.Reply?
  {
    match OpenFrame(buf, off)
    case Fail => Fail
    case Ok(end, p0) =>
      match DecodeInt(buf, p0)
      case Fail => Fail
      case Ok(ty, p1) =>
        match DecodeDesc(buf, p1)
        case Fail => Fail
        case Ok(desc, p2) => CloseFrame(Reply(ty, desc), p2, end)
  }

  /** Decodes with the class of the given message. */
  function DecodeAs(m: Message, buf: seq<byte>, off: nat): Parsed<Message> {
    match m
    case Plain(_) =>
      (match DecodePlain(buf, off)
       case Fail => Fail
       case Ok(ty, next) => Ok(Plain(ty), next))
    case Init(_, _) => DecodeInit(buf, off)
    case Reply(_, _) => DecodeReply(buf, off)
  }

  // ---------------------------------------------------------------- field round trips

  lemma U32At(buf: seq<byte>, off: nat, n: u32)
    requires At(buf, off, ToLE(n, 4))
    ensures DecodeU32(buf, off) == Ok(n, off + 4)
  {
    U32RoundTrip(n);
  }

  lemma U64At(buf: seq<byte>, off: nat, n: u64)
    requires At(buf, off, ToLE(n, 8))
    ensures DecodeU64(buf, off) == Ok(n, off + 8)
  {
    U64RoundTrip(n);
  }

  lemma IntAt(buf: seq<byte>, off: nat, t: i32)
    requires At(buf, off, EncodeInt(t))
    ensures DecodeInt(buf, off) == Ok(t, off + 4)
  {
    U32At(buf, off, if t < 0 then t + TWO32 else t);
  }

  lemma StringAt(buf: seq<byte>, off: nat, s: seq<byte>)
    requires At(buf, off, EncodeString(s))
    ensures DecodeString(buf, off) == Ok(s[..|s| % TWO32], off + |EncodeString(s)|)
  {
    var len := |s| % TWO32;
    AtSplit(buf, off, ToLE(len, 4), s[..len]);
    U32At(buf, off, len);
  }

  lemma FrameAt(buf: seq<byte>, off: nat, payload: seq<byte>)
    requires At(buf, off, Frame(payload)) && |payload| < TWO32
    ensures OpenFrame(buf, off) == Ok(off + |Frame(payload)|, off + HEADER)
    ensures At(buf, off + HEADER, payload)
  {
    AtSplit(buf, off, FrameHeader(|payload|), payload);
    AtSplit(buf, off, [1, 1], ToLE(|payload|, 4));
    assert buf[off..off + 2][1] == buf[off + 1];
    U32RoundTrip(|payload|);
  }

  /** What survives of the names when their lengths are cut to 32 bits. */
  function StoredInfo(i: CacheInfo): CacheInfo {
    i.(pool := i.pool[..|i.pool| % TWO32], image := i.image[..|i.image| % TWO32])
  }

  function StoredDesc(d: ConfigDescriptor): ConfigDescriptor {
    d.(descriptors := d.descriptors[..|d.descriptors| % TWO32])
  }

  /** The message as it survives 32-bit string lengths. */
  function Stored(m: Message): Message {
    match m
    case Plain(_) => m
    case Init(ty, i) => Init(ty, StoredInfo(i))
    case Reply(ty, d) => Reply(ty, StoredDesc(d))
  }

  /** Every string of the message has a length that fits its 32-bit prefix. */
  predicate Sized(m: Message) {
    match m
    case Plain(_) => true
    case Init(_, i) => |i.pool| < TWO32 && |i.image| < TWO32
    case Reply(_, d) => |d.descriptors| < TWO32
  }

  lemma StoredIsSameIffSized(m: Message)
    ensures Stored(m) == m <==> Sized(m)
  {
  }

  lemma InfoFieldsAt(buf: seq<byte>, off: nat, i: CacheInfo)
    requires At(buf, off, InfoPayload(i))
    ensures DecodeU32(buf, off) == Ok(i.cacheId, off + 4)
    ensures DecodeU64(buf, off + 4) == Ok(i.cacheSize, off + 12)
    ensures var next := off + 12 + |EncodeString(i.pool)|;
            && DecodeString(buf, off + 12) == Ok(i.pool[..|i.pool| % TWO32], next)
            && DecodeString(buf, next) == Ok(i.image[..|i.image| % TWO32], off + |InfoPayload(i)|)
  {
    hide At, EncodeString, DecodeString, DecodeU32, DecodeU64;
    var pool, image := EncodeString(i.pool), EncodeString(i.image);
    AtSplit(buf, off, ToLE(i.cacheId, 4), ToLE(i.cacheSize, 8) + (pool + image));
    AtSplit(buf, off + 4, ToLE(i.cacheSize, 8), pool + image);
    AtSplit(buf, off + 12, pool, image);
    U32At(buf, off, i.cacheId);
    U64At(buf, off + 4, i.cacheSize);
    StringAt(buf, off + 12, i.pool);
    StringAt(buf, off + 12 + |pool|, i.image);
  }

  lemma InfoFromFields(buf: seq<byte>, off: nat, i: CacheInfo, p: nat, end: nat)
    requires OpenFrame(buf, off) == Ok(end, off + HEADER)
    requires DecodeU32(buf, off + 6) == Ok(i.cacheId, off + 10)
    requires DecodeU64(buf, off + 10) == Ok(i.cacheSize, off + 18)
    requires DecodeString(buf, off + 18) == Ok(i.pool, p)
    requires DecodeString(buf, p) == Ok(i.image, end)
    ensures DecodeInfo(buf, off) == Ok(i, end)
  {
  }

  lemma InfoAt(buf: seq<byte>, off: nat, i: CacheInfo)
    requires At(buf, off, Frame(InfoPayload(i))) && |InfoPayload(i)| < TWO32
    ensures DecodeInfo(buf, off) == Ok(StoredInfo(i), off + |Frame(InfoPayload(i))|)
  {
    hide At, OpenFrame, DecodeInfo, Frame, EncodeString;
    var payload := InfoPayload(i);
    FrameAt(buf, off, payload);
    InfoFieldsAt(buf, off + HEADER, i);
    InfoFromFields(buf, off, StoredInfo(i), off + 18 + |EncodeString(i.pool)|, off + |Frame(payload)|);
  }

  lemma DescFieldsAt(buf: seq<byte>, off: nat, d: ConfigDescriptor)
    requires At(buf, off, DescPayload(d))
    ensures DecodeU32(buf, off) == Ok(d.mrDescSize, off + 4)
    ensures DecodeU32(buf, off + 4) == Ok(d.pcfgDescSize, off + 8)
    ensures DecodeString(buf, off + 8) == Ok(d.descriptors[..|d.descriptors| % TWO32], off + |DescPayload(d)|)
  {
    hide At, EncodeString, DecodeString, DecodeU32;
    AtSplit(buf, off, ToLE(d.mrDescSize, 4), ToLE(d.pcfgDescSize, 4) + EncodeString(d.descriptors));
    AtSplit(buf, off + 4, ToLE(d.pcfgDescSize, 4), EncodeString(d.descriptors));
    U32At(buf, off, d.mrDescSize);
    U32At(buf, off + 4, d.pcfgDescSize);
    StringAt(buf, off + 8, d.descriptors);
  }

  lemma DescAt(buf: seq<byte>, off: nat, d: ConfigDescriptor)
    requires At(buf, off, Frame(DescPayload(d))) && |DescPayload(d)| < TWO32
    ensures DecodeDesc(buf, off) == Ok(StoredDesc(d), off + |Frame(DescPayload(d))|)
  {
    hide At, Frame, OpenFrame, EncodeString, DecodeString, DecodeU32;
    FrameAt(buf, off, DescPayload(d));
    DescFieldsAt(buf, off + HEADER, d);
  }

  // ---------------------------------------------------------------- message round trips

  /** A message opens as a frame that starts with its type and goes on with its body. */
  lemma MessageAt(m: Message, buf: seq<byte>, off: nat)
    requires At(buf, off, Encode(m)) && |Encode(m)| < MSG_SIZE
    ensures OpenFrame(buf, off) == Ok(off + |Encode(m)|, off + HEADER)
    ensures DecodeInt(buf, off + HEADER) == Ok(m.ty, off + 10)
    ensures At(buf, off + 10, Body(m)) && |Encode(m)| == 10 + |Body(m)|
  {
    hide At, Body, OpenFrame, DecodeInt, Frame, EncodeInt;
    FrameAt(buf, off, Payload(m));
    AtSplit(buf, off + HEADER, EncodeInt(m.ty), Body(m));
    IntAt(buf, off + HEADER, m.ty);
  }

  /** Reading any message as its base class gives its type and stops where the whole message stops. */
  lemma Peek(m: Message, buf: seq<byte>, off: nat)
    requires At(buf, off, Encode(m)) && |Encode(m)| < MSG_SIZE
    ensures DecodePlain(buf, off) == Ok(m.ty, off + |Encode(m)|)
  {
    MessageAt(m, buf, off);
  }

  lemma InitRoundTrip(ty: i32, i: CacheInfo, buf: seq<byte>, off: nat)
    requires At(buf, off, Encode(Init(ty, i))) && |Encode(Init(ty, i))| < MSG_SIZE
    ensures DecodeInit(buf, off) == Ok(Init(ty, StoredInfo(i)), off + |Encode(Init(ty, i))|)
  {
    hide At, Encode, DecodeInfo, InfoPayload;
    MessageAt(Init(ty, i), buf, off);
    InfoAt(buf, off + 10, i);
  }

  lemma ReplyRoundTrip(ty: i32, d: ConfigDescriptor, buf: seq<byte>, off: nat)
    requires At(buf, off, Encode(Reply(ty, d))) && |Encode(Reply(ty, d))| < MSG_SIZE
    ensures DecodeReply(buf, off) == Ok(Reply(ty, StoredDesc(d)), off + |Encode(Reply(ty, d))|)
  {
    hide At, Encode, DecodeDesc, DescPayload;
    MessageAt(Reply(ty, d), buf, off);
    DescAt(buf, off + 10, d);
  }

  /**
   Decoding finds what was encoded wherever it stands and whatever surrounds it; it finds the very
   message exactly when no string is too long for its 32-bit length.
   */
  lemma RoundTrip(m: Message, buf: seq<byte>, off: nat)
    requires At(buf, off, Encode(m)) && |Encode(m)| < MSG_SIZE
    ensures DecodeAs(m, buf, off) == Ok(Stored(m), off + |Encode(m)|)
    ensures DecodeAs(m, buf, off) == Ok(m, off + |Encode(m)|) <==> Sized(m)
  {
    hide At, Encode, DecodeInit, DecodeReply, DecodePlain, StoredInfo, StoredDesc;
    StoredIsSameIffSized(m);
    match m
    case Plain(_) => Peek(m, buf, off);
    case Init(ty, i) => InitRoundTrip(ty, i, buf, off);
    case Reply(ty, d) => ReplyRoundTrip(ty, d, buf, off);
  }

  /**
   Whatever bytes there are: no reader accepts a frame for newer readers, one that runs past the buffer or
   one too short for a type; the base-class reader accepts every other; and what a larger reader
   accepts, the base-class reader accepts with the same type and up to the same end.
   */
  lemma ReadersAgree(buf: seq<byte>, off: nat)
    ensures DecodePlain(buf, off).Ok? <==>
            off + 6 <= |buf| && buf[off + 1] <= 1
            && 4 <= FromLE(buf[off + 2..off + 6]) <= |buf| - off - 6
    ensures var r := DecodeInit(buf, off); r.Ok? ==> DecodePlain(buf, off) == Ok(r.value.ty, r.next)
    ensures var r := DecodeReply(buf, off); r.Ok? ==> DecodePlain(buf, off) == Ok(r.value.ty, r.next)
  {
  }

  /** A message without a body is never mistaken for one with a body, whatever bytes follow it. */
  lemma PlainIsNeverInitOrReply(ty: i32, buf: seq<byte>, off: nat)
    requires At(buf, off, Encode(Plain(ty)))
    ensures DecodeInit(buf, off) == Fail && DecodeReply(buf, off) == Fail
  {
    FrameAt(buf, off, Payload(Plain(ty)));
  }

  // ---------------------------------------------------------------- sizes

  lemma StringSize(s: seq<byte>)
    requires |s| < TWO32
    ensures |EncodeString(s)| == 4 + |s|
  {
  }

  function FrameSize(m: Message): nat {
    match m
    case Plain(_) => 10
    case Init(_, i) => 36 + |i.pool| + |i.image|
    case Reply(_, d) => 28 + |d.descriptors|
  }

  /** Exact frame sizes, and with them exactly which messages pass the length assertions of the senders. */
  lemma FrameSizes(m: Message)
    requires Sized(m)
    ensures |Encode(m)| == FrameSize(m)
    ensures |Encode(m)| < MSG_SIZE <==>
            && (m.Init? ==> |m.info.pool| + |m.info.image| <= 4059)
            && (m.Reply? ==> |m.desc.descriptors| <= 4067)
  {
    match m
    case Plain(_) =>
      assert |Body(m)| == 0;
    case Init(_, i) =>
      StringSize(i.pool);
      StringSize(i.image);
      assert |InfoPayload(i)| == 20 + |i.pool| + |i.image|;
    case Reply(_, d) =>
      StringSize(d.descriptors);
      assert |DescPayload(d)| == 12 + |d.descriptors|;
  }

  // ---------------------------------------------------------------- the bytes

  /** The messages without a body, byte by byte. */
  lemma PlainBytes()
    ensures Encode(Plain(FINISHED_REQUEST)) == [1, 1, 4, 0, 0, 0, 0x2, 0, 0, 0]
    ensures Encode(Plain(FINISHED_SUCCEEDED)) == [1, 1, 4, 0, 0, 0, 0x21, 0, 0, 0]
    ensures Encode(Plain(FINISHED_FAILED)) == [1, 1, 4, 0, 0, 0, 0x22, 0, 0, 0]
  {
  }

  /** Two bytes of a length that fits them, and two zeros. */
  function Length(n: nat): seq<byte>
    requires n < 65536
  {
    [n % 256, n / 256, 0, 0]
  }

  /** Version 1, compatibility 1, the length, the payload. */
  function Framed(payload: seq<byte>): seq<byte>
    requires |payload| < 65536
  {
    [1, 1] + Length(|payload|) + payload
  }

  lemma FrameBytes(payload: seq<byte>)
    requires |payload| < 65536
    ensures Frame(payload) == Framed(payload)
  {
    LittleEndian(|payload|, 4);
  }

  /** An INIT request, byte by byte: type, then the framed id, size and names. */
  lemma InitBytes(i: CacheInfo)
    requires |i.pool| + |i.image| <= 4059
    ensures Encode(Init(INIT_REQUEST, i)) ==
            Framed([1, 0, 0, 0] + Framed(ToLE(i.cacheId, 4) + (ToLE(i.cacheSize, 8)
                   + ((Length(|i.pool|) + i.pool) + (Length(|i.image|) + i.image)))))
  {
    StringBytes(i.pool);
    StringBytes(i.image);
    TypeBytes();
    var info := InfoPayload(i);
    FrameBytes(info);
    FrameBytes([1, 0, 0, 0] + Framed(info));
  }

  /** A successful INIT reply, byte by byte: type, then the framed sizes and descriptors. */
  lemma ReplyBytes(d: ConfigDescriptor)
    requires |d.descriptors| <= 4067
    ensures Encode(Reply(INIT_SUCCEEDED, d)) ==
            Framed([0x11, 0, 0, 0] + Framed(ToLE(d.mrDescSize, 4) + (ToLE(d.pcfgDescSize, 4)
                   + (Length(|d.descriptors|) + d.descriptors))))
  {
    StringBytes(d.descriptors);
    TypeBytes();
    var desc := DescPayload(d);
    FrameBytes(desc);
    FrameBytes([0x11, 0, 0, 0] + Framed(desc));
  }

  lemma TypeBytes()
    ensures EncodeInt(INIT_REQUEST) == [1, 0, 0, 0] && EncodeInt(INIT_SUCCEEDED) == [0x11, 0, 0, 0]
    ensures EncodeInt(INIT_FAILED) == [0x12, 0, 0, 0]
  {
  }

  lemma StringBytes(s: seq<byte>)
    requires |s| < 65536
    ensures EncodeString(s) == Length(|s|) + s
  {
    LittleEndian(|s|, 4);
    hide ToLE;
    assert |s| % TWO32 == |s| && s[..|s|] == s;
  }

  /** A number below 65536 in four bytes, least significant first. */
  lemma LittleEndian(n: nat, k: nat)
    requires n < 65536 && k == 4
    ensures ToLE(n, k) == [n % 256, n / 256, 0, 0]
  {
    assert ToLE(n / 256 / 256, k - 2) == [0, 0];
  }

  // ---------------------------------------------------------------- prefix freedom

  /** The type each class is built with: a request carries 1, its reply 0x11 or 0x12, the rest are plain. */
  predicate WellTyped(m: Message) {
    match m
    case Plain(ty) => ty in {FINISHED_REQUEST, FINISHED_SUCCEEDED, FINISHED_FAILED}
    case Init(ty, _) => ty == INIT_REQUEST
    case Reply(ty, _) => ty in {INIT_SUCCEEDED, INIT_FAILED}
  }

  /** No message is a proper prefix of another, and two messages with the same bytes are one. */
  lemma PrefixFree(a: Message, b: Message)
    requires WellTyped(a) && WellTyped(b) && Sized(a) && Sized(b)
    requires |Encode(a)| < MSG_SIZE && |Encode(b)| < MSG_SIZE
    requires Encode(a) <= Encode(b)
    ensures a == b
  {
    hide Encode, DecodeInit, DecodeReply, DecodePlain;
    var buf := Encode(b);
    assert At(buf, 0, Encode(a)) && At(buf, 0, Encode(b));
    Peek(a, buf, 0);
    Peek(b, buf, 0);
    RoundTrip(a, buf, 0);
    RoundTrip(b, buf, 0);
  }

  // ---------------------------------------------------------------- stale buffers

  /** `memcpy` to the front of a buffer. */
  function Overwrite(buf: seq<byte>, bytes: seq<byte>): (r: seq<byte>)
    requires |bytes| <= |buf|
    ensures |r| == |buf| && At(r, 0, bytes)
  {
    bytes + buf[|bytes|..]
  }

  predicate Fitting(copies: seq<seq<byte>>) {
    forall c <- copies :: |c| < MSG_SIZE
  }

  /** The buffer after the given byte strings were copied to its front one after the other. */
  function OverwriteAll(buf: seq<byte>, copies: seq<seq<byte>>): (r: seq<byte>)
    requires |buf| == MSG_SIZE && Fitting(copies)
    ensures |r| == MSG_SIZE
    ensures copies != [] ==> At(r, 0, copies[|copies| - 1])
  {
    if copies == [] then buf
    else Overwrite(OverwriteAll(buf, copies[..|copies| - 1]), copies[|copies| - 1])
  }

  /** Only the last message counts: what it decodes to and where it ends do not depend on what lies behind it. */
  lemma LastMessageWins(buf: seq<byte>, copies: seq<seq<byte>>, m: Message)
    requires |buf| == MSG_SIZE && Fitting(copies)
    requires copies != [] && copies[|copies| - 1] == Encode(m)
    ensures var r := OverwriteAll(buf, copies);
            && DecodeAs(m, r, 0) == Ok(Stored(m), |Encode(m)|)
            && (DecodeAs(m, r, 0) == Ok(m, |Encode(m)|) <==> Sized(m))
            && DecodePlain(r, 0) == Ok(m.ty, |Encode(m)|)
            && (m.Plain? ==> DecodeInit(r, 0) == Fail && DecodeReply(r, 0) == Fail)
  {
    hide Encode, DecodeInit, DecodeReply, DecodePlain, Stored, Overwrite;
    var r := OverwriteAll(buf, copies);
    RoundTrip(m, r, 0);
    Peek(m, r, 0);
    if m.Plain? {
      PlainIsNeverInitOrReply(m.ty, r, 0);
    }
  }

  /** The copy that decides byte `i`: the last one long enough to reach it. */
  predicate Decides(copies: seq<seq<byte>>, k: nat, i: nat) {
    && k < |copies| && i < |copies[k]|
    && forall j | k < j < |copies| :: |copies[j]| <= i
  }

  /** Each byte of a stale buffer belongs to the last copy that reached it. */
  lemma {:induction false} ReachedByte(buf: seq<byte>, copies: seq<seq<byte>>, k: nat, i: nat)
    requires |buf| == MSG_SIZE && Fitting(copies) && Decides(copies, k, i) && i < MSG_SIZE
    ensures OverwriteAll(buf, copies)[i] == copies[k][i]
  {
    if k == |copies| - 1 {
    } else {
      ReachedByte(buf, copies[..|copies| - 1], k, i);
    }
  }

  /** Bytes no copy reached keep their first value. */
  lemma {:induction false} UnreachedByte(buf: seq<byte>, copies: seq<seq<byte>>, i: nat)
    requires |buf| == MSG_SIZE && Fitting(copies) && i < MSG_SIZE
    requires forall c <- copies :: |c| <= i
    ensures OverwriteAll(buf, copies)[i] == buf[i]
  {
    if copies == [] {
    } else {
      UnreachedByte(buf, copies[..|copies| - 1], i);
    }
  }
}
