/**
 The INIT/FINISHED exchange between a client and a server: what each handler does to its buffers and
 fields, and how the two nodes and the wire between them move.

 Each side has one send buffer and one receive buffer.  A posted send reads the buffer when the
 message leaves, not when it is posted; a message is put into a posted receive, and waits while the
 peer has none; messages of one connection keep their order.
 */
module Handshake {
  import opened Bytes
  import opened Wire

  datatype FlushType = Persistent | Visibility

  /** The server's memory region. */
  datatype Region = Region(size: u64, pmem: bool)

  // ---------------------------------------------------------------- descriptors

  const USAGE_WRITE_DST: byte := 8
  const USAGE_FLUSH_VISIBILITY: byte := 16
  const USAGE_FLUSH_PERSISTENT: byte := 32

  /** The usage a region is registered with: writes, and the flush its memory allows. */
  function Usage(r: Region): byte {
    USAGE_WRITE_DST + if r.pmem then USAGE_FLUSH_PERSISTENT else USAGE_FLUSH_VISIBILITY
  }

  /** The flush types a usage allows. */
  predicate Allows(usage: byte, f: FlushType) {
    match f
    case Visibility => usage / USAGE_FLUSH_VISIBILITY % 2 == 1
    case Persistent => usage / USAGE_FLUSH_PERSISTENT % 2 == 1
  }

  /** The address and remote key by which the device tells one registration from another. */
  type Key = seq<byte>

  /**
   librpma's descriptors are opaque to the program, which only carries them.  This layout stands for
   any that can be read back: the region's size, its usage, and the registration's key.
   */
  function MrDescriptor(r: Region, key: Key): (d: seq<byte>)
    ensures |d| == 9 + |key|
  {
    ToLE(r.size, 8) + [Usage(r)] + key
  }

  function PeerConfig(directWrite: bool): (d: seq<byte>)
    ensures |d| == 1
  {
    [if directWrite then 1 else 0]
  }

  /** The two descriptors one behind the other, with their sizes. */
  function Pack(mr: seq<byte>, pcfg: seq<byte>): ConfigDescriptor
    requires |mr| < TWO32 && |pcfg| < TWO32
  {
    ConfigDescriptor(|mr|, |pcfg|, mr + pcfg)
  }

  /** The slices the client hands to librpma; a descriptor that claims more than it carries has none. */
  function Unpack(d: ConfigDescriptor): Option<(seq<byte>, seq<byte>)> {
    if d.mrDescSize + d.pcfgDescSize > |d.descriptors| then None
    else Some((d.descriptors[..d.mrDescSize], d.descriptors[d.mrDescSize..d.mrDescSize + d.pcfgDescSize]))
  }

  // ---------------------------------------------------------------- the server's handler

  /**
   How the foreign calls of one request turn out whose failure the handler acts on.  The calls that
   make a peer configuration or give a descriptor or its size are taken to succeed.
   */
  datatype Outcome = Outcome(
    alloc: Option<bool>,  // the block `init` obtains: pmem or not; nothing when `malloc` fails too
    registered: bool,     // rpma_mr_reg
    configured: bool,     // rpma_peer_cfg_set_direct_write_to_pmem
    removed: bool,        // remove of the cache file
    key: Key)             // of the registration, if there is one

  /** A posted send: what the buffer held at the post, and the number of the request it answers. */
  datatype Posted = Posted(bytes: seq<byte>, answers: nat)

  /** What the running receive callback has still to do. */
  datatype Task = Resting | MustReceive | MustSend

  datatype Server = Server(
    sendBl: seq<byte>, recvBl: seq<byte>,
    credits: nat,          // posted receives
    pending: seq<Posted>,  // posted sends that have not left
    arrived: bool,         // a receive has completed and its callback has not started
    task: Task,
    region: Option<Region>,
    mr: Option<Key>,       // `data_mr`, the registration of the region
    keys: seq<Key>,        // all registrations so far
    handled: nat, finished: nat, sends: nat,
    halted: bool)          // an exception reached the main program

  function PostReceive(s: Server): Server {
    s.(credits := s.credits + 1)
  }

  function PostSend(s: Server): Server {
    s.(pending := s.pending + [Posted(s.sendBl, s.handled + 1)], sends := s.sends + 1)
  }

  function InitReply(r: Region, key: Key): Message
    requires |key| <= 4057
  {
    Message.Reply(INIT_SUCCEEDED, Pack(MrDescriptor(r, key), PeerConfig(r.pmem)))
  }

  /** `rpma_mr_reg` and `data_mr.reset`: the new registration takes the place of the old one, which ends. */
  function Reregister(s: Server, key: Key): Server {
    s.(mr := Some(key), keys := s.keys + [key])
  }

  /** `register_mr_to_descriptor`: the reply is copied only if every call on the way succeeded. */
  function Advertise(s: Server, r: Region, o: Outcome): (t: Server)
    requires |s.sendBl| == MSG_SIZE && |o.key| <= 4057
    ensures |t.sendBl| == MSG_SIZE && t.recvBl == s.recvBl
  {
    if !o.registered then s
    else if r.pmem && !o.configured then Reregister(s, o.key)
    else
      ReplyFits(r, o.key);
      Reregister(s, o.key).(sendBl := Overwrite(s.sendBl, Encode(InitReply(r, o.key))))
  }

  lemma ReplyFits(r: Region, key: Key)
    requires |key| <= 4057
    ensures Sized(InitReply(r, key)) && |Encode(InitReply(r, key))| < MSG_SIZE
  {
  }

  /** `get_descriptor_for_write`: a region is made unless there is one, and advertised. */
  function Setup(s: Server, o: Outcome): (t: Server)
    requires |s.sendBl| == MSG_SIZE && |o.key| <= 4057
    ensures |t.sendBl| == MSG_SIZE && t.recvBl == s.recvBl
  {
    match DecodeInit(s.recvBl, 0)
    case Fail => s.(halted := true)
    case Ok(m, _) =>
      if s.region.None? && o.alloc.None? then s.(halted := true)
      else
        var r := if s.region.Some? then s.region.value else Region(m.info.cacheSize, o.alloc.value);
        Advertise(s.(region := Some(r)), r, o)
  }

  function FinishedReply(s: Server, o: Outcome): Message {
    Plain(if s.region.None? || o.removed then FINISHED_SUCCEEDED else FINISHED_FAILED)
  }

  /** `close`: the registration and the region go, the reply is copied, and a send is posted at once. */
  function Close(s: Server, o: Outcome): (t: Server)
    requires |s.sendBl| == MSG_SIZE
    ensures |t.sendBl| == MSG_SIZE && t.recvBl == s.recvBl
  {
    FrameSizes(FinishedReply(s, o));
    PostSend(s.(region := None, mr := None, finished := s.finished + 1,
                sendBl := Overwrite(s.sendBl, Encode(FinishedReply(s, o)))))
  }

  /** `get_descriptor`: peeks at the type, then handles the request; an unknown type is only logged. */
  function GetDescriptor(s: Server, o: Outcome): (t: Server)
    requires |s.sendBl| == MSG_SIZE && |o.key| <= 4057
    ensures |t.sendBl| == MSG_SIZE && t.recvBl == s.recvBl
  {
    match DecodePlain(s.recvBl, 0)
    case Fail => s.(halted := true)
    case Ok(ty, _) =>
      if ty == INIT_REQUEST then Setup(s, o)
      else if ty == FINISHED_REQUEST then Close(s, o)
      else s
  }

  /** The request in the buffer makes the handler register its region. */
  predicate Registers(s: Server, o: Outcome) {
    && DecodePlain(s.recvBl, 0).Ok? && DecodePlain(s.recvBl, 0).value == INIT_REQUEST
    && DecodeInit(s.recvBl, 0).Ok? && (s.region.Some? || o.alloc.Some?) && o.registered
  }

  /** Then it fails to set up the peer configuration, which only a region of pmem needs. */
  predicate LeavesOldReply(s: Server, o: Outcome)
    requires Registers(s, o)
  {
    (if s.region.Some? then s.region.value.pmem else o.alloc.value) && !o.configured
  }

  /** The request in the buffer makes the handler copy a reply into the send buffer. */
  predicate CopiesReply(s: Server, o: Outcome) {
    && DecodePlain(s.recvBl, 0).Ok?
    && (DecodePlain(s.recvBl, 0).value == FINISHED_REQUEST || (Registers(s, o) && !LeavesOldReply(s, o)))
  }

  /** `deal_require` up to the request's effect on region and send buffer. */
  function Begin(s: Server, o: Outcome): (t: Server)
    requires |s.sendBl| == MSG_SIZE && |o.key| <= 4057
    ensures |t.sendBl| == MSG_SIZE && t.recvBl == s.recvBl
  {
    var g := GetDescriptor(s, o);
    if g.halted then g else g.(task := MustReceive)
  }

  /** The next receive is posted ... */
  function Repost(s: Server): Server {
    PostReceive(s).(task := MustSend)
  }

  /** ... and only then whatever the send buffer holds is sent. */
  function Answer(s: Server): Server {
    PostSend(s).(handled := s.handled + 1, task := Resting)
  }

  /** The whole callback. */
  function DealRequire(s: Server, o: Outcome): (t: Server)
    requires |s.sendBl| == MSG_SIZE && |o.key| <= 4057
    ensures |t.sendBl| == MSG_SIZE && t.recvBl == s.recvBl
  {
    var g := Begin(s, o);
    if g.halted then g else Answer(Repost(g))
  }

  // ---------------------------------------------------------------- the client's handler

  datatype Request = InitRequest(info: CacheInfo) | FinishRequest

  function RequestMessage(r: Request): Message {
    match r
    case InitRequest(i) => Init(INIT_REQUEST, i)
    case FinishRequest => Plain(FINISHED_REQUEST)
  }

  predicate Sendable(r: Request) {
    Sized(RequestMessage(r)) && |Encode(RequestMessage(r))| < MSG_SIZE
  }

  /** `_image_mr`: what the client takes for the server's region. */
  datatype Remote = Remote(size: nat, key: Key)

  datatype Client = Client(
    sendBl: seq<byte>, recvBl: seq<byte>,
    credits: nat, pending: seq<seq<byte>>, arrived: bool,
    asking: bool,               // the receive is posted and the send is not
    waiting: bool,              // inside init_replica or close_replica, no reply taken yet
    calls: nat,
    imageSize: u64,
    image: Option<Remote>,      // `_image_mr`, without a value at first
    flush: Option<FlushType>,   // `_flush_type`, without a value at first
    directWrite: bool,          // the peer configuration applied to the connection
    ret: int,                   // what the last call that was answered returned
    halted: bool)

  /**
   What a buffer tells a client that waits for an INIT reply: the region's size and registration, and
   direct writes to pmem or not; or only the latter, where librpma refuses the region's descriptor.
   */
  datatype Offer =
    | Unreadable
    | Refused
    | NoRegion(direct: Option<bool>)
    | Offer(direct: Option<bool>, size: nat, key: Key)

  function ReadDescriptors(d: ConfigDescriptor): Offer {
    match Unpack(d)
    case None => Unreadable
    case Some((mr, pcfg)) =>
      var direct := if pcfg == [] then None else Some(pcfg[0] != 0);
      if |mr| < 9 then NoRegion(direct) else Offer.Offer(direct, FromLE(mr[..8]), mr[9..])
  }

  function ReadOffer(buf: seq<byte>): Offer {
    match DecodeReply(buf, 0)
    case Fail => Unreadable
    case Ok(m, _) => if m.ty == INIT_SUCCEEDED then ReadDescriptors(m.desc) else Refused
  }

  /** The region the client goes on with: a refused descriptor is only logged and the old one stays. */
  function Chosen(c: Client, f: Offer): Option<Remote> {
    if f.Offer? then Some(Remote(f.size, f.key)) else c.image
  }

  /** The client takes the flush type from an offer if the region it goes on with is large enough for its image. */
  predicate Accepts(c: Client, f: Offer) {
    (f.Offer? || f.NoRegion?) && Chosen(c, f).Some? && Chosen(c, f).value.size >= c.imageSize
  }

  /** `get_remote_descriptor`. */
  function GetRemoteDescriptor(c: Client): Client {
    TakeOffer(c, ReadOffer(c.recvBl))
  }

  /** The peer configuration is applied and the region replaced before the size is checked. */
  function TakeOffer(c: Client, f: Offer): (t: Client)
    ensures t == c.(image := t.image, flush := t.flush, directWrite := t.directWrite, halted := t.halted)
  {
    if f.Unreadable? then c.(halted := true)
    else if f.Refused? then c
    else
      c.(image := Chosen(c, f),
         directWrite := if f.direct.Some? then f.direct.value else c.directWrite,
         flush := if Accepts(c, f) then Some(if f.direct == Some(true) then Persistent else Visibility) else c.flush,
         halted := c.halted || Chosen(c, f).None?)  // a pointer that was never set is followed
  }

  /** `init_replica` and `close_replica`: the request is copied and a receive is posted ... */
  function Prepare(c: Client, r: Request): Client
    requires |c.sendBl| == MSG_SIZE && Sendable(r)
  {
    c.(sendBl := Overwrite(c.sendBl, Encode(RequestMessage(r))), credits := c.credits + 1,
       asking := true, waiting := true, calls := c.calls + 1,
       imageSize := if r.InitRequest? then r.info.cacheSize else c.imageSize)
  }

  /** ... and then the send. */
  function Launch(c: Client): Client {
    c.(pending := c.pending + [c.sendBl], asking := false)
  }

  /** The receive's callback, for the request the client waits on; it ends the wait unless it throws. */
  function TakeReply(c: Client, r: Request): Client {
    match r
    case InitRequest(_) =>
      var t := GetRemoteDescriptor(c);  // its own result is dropped
      t.(arrived := false, waiting := t.halted && c.waiting, ret := if t.halted then c.ret else 0)
    case FinishRequest =>
      match DecodePlain(c.recvBl, 0)
      case Fail => c.(arrived := false, halted := true)
      case Ok(ty, _) => c.(arrived := false, waiting := false, ret := if ty == FINISHED_SUCCEEDED then 0 else -1)
  }

  // ---------------------------------------------------------------- both nodes and the wire

  /**
   What must not happen: a message copied into a send buffer under a send that has not left, and one
   that changes its bytes; a receive buffer read while a receive into it is posted; a reply taken for
   another request's; a flush type or size taken that is not the region's.
   */
  datatype Faults = Faults(overwritten: bool, altered: bool, early: bool, stale: bool, misfit: bool)

  const NoFaults: Faults := Faults(false, false, false, false, false)

  /** The faults once a message has been copied over `before`, which leaves `after`, while sends waited or not. */
  function Copied(f: Faults, waiting: bool, before: seq<byte>, after: seq<byte>): Faults {
    f.(overwritten := f.overwritten || waiting, altered := f.altered || (waiting && before != after))
  }

  /** `origin` is the number of the call whose request stands in the server's receive buffer. */
  datatype World = World(plan: seq<Request>, client: Client, server: Server, origin: nat, faults: Faults)

  datatype Event =
    | Call                // the client starts the next call of its plan
    | Submit              // and posts its send
    | ToServer            // a request leaves the client's buffer and fills the server's
    | Handle(o: Outcome)  // the server's receive callback starts
    | PostNext            // it posts the next receive
    | Respond             // it posts its send and ends
    | ToClient            // a reply leaves the server's buffer and fills the client's
    | Return              // the client's receive callback runs

  predicate Fits(plan: seq<Request>) {
    forall r <- plan :: Sendable(r)
  }

  predicate Formed(w: World) {
    && |w.client.sendBl| == |w.client.recvBl| == |w.server.sendBl| == |w.server.recvBl| == MSG_SIZE
    && w.origin <= w.client.calls <= |w.plan| && Fits(w.plan)
  }

  predicate Enabled(w: World, e: Event) {
    match e
    case Call => !w.client.halted && !w.client.asking && !w.client.waiting && w.client.calls < |w.plan|
    case Submit => w.client.asking
    case ToServer => w.client.pending != [] && w.server.credits > 0
    case Handle(o) => !w.server.halted && w.server.arrived && w.server.task == Resting && |o.key| <= 4057
    case PostNext => !w.server.halted && w.server.task == MustReceive
    case Respond => !w.server.halted && w.server.task == MustSend
    case ToClient => w.server.pending != [] && w.client.credits > 0
    case Return => !w.client.halted && w.client.arrived && w.client.calls > 0
  }

  /** What is offered is of the size and kind of the region the server has. */
  predicate Matches(f: Offer, region: Option<Region>) {
    && !f.NoRegion?
    && (f.Offer? ==> region.Some? && f.size == region.value.size && f.direct == Some(region.value.pmem))
  }

  function Step(w: World, e: Event): (t: World)
    requires Formed(w) && Enabled(w, e)
    ensures Formed(t) && t.plan == w.plan
  {
    var c, s := w.client, w.server;
    match e
    case Call =>
      var r := w.plan[c.calls];
      w.(client := Prepare(c, r), faults := Copied(w.faults, c.pending != [], c.sendBl, Prepare(c, r).sendBl))
    case Submit => w.(client := Launch(c))
    case ToServer =>
      w.(client := c.(pending := c.pending[1..]),
         server := s.(recvBl := c.sendBl, credits := s.credits - 1, arrived := true),
         origin := c.calls)
    case Handle(o) =>
      var t := Begin(s.(arrived := false), o);
      var f := w.faults.(early := w.faults.early || s.credits > 0);
      w.(server := t,
         faults := if CopiesReply(s, o) then Copied(f, s.pending != [], s.sendBl, t.sendBl) else f)
    case PostNext => w.(server := Repost(s))
    case Respond => w.(server := Answer(s))
    case ToClient =>
      w.(server := s.(pending := s.pending[1..]),
         client := c.(recvBl := s.sendBl, credits := c.credits - 1, arrived := true),
         faults := w.faults.(stale := w.faults.stale || s.pending[0].answers != c.calls))
    case Return =>
      var r := w.plan[c.calls - 1];
      var f := ReadOffer(c.recvBl);
      w.(client := TakeReply(c, r),
         faults := w.faults.(early := w.faults.early || c.credits > 0,
                             misfit := w.faults.misfit
                                       || (r.InitRequest? && Accepts(c, f) && !Matches(f, s.region))))
  }

  /** The world after the events, or nothing if one of them cannot happen. */
  function Run(w: World, es: seq<Event>): (r: Option<World>)
    requires Formed(w)
    ensures r.Some? ==> Formed(r.value) && r.value.plan == w.plan
    decreases |es|
  {
    if es == [] then Some(w)
    else if !Enabled(w, es[0]) then None
    else Run(Step(w, es[0]), es[1..])
  }

  /** A connection just made: the server's first receive was posted before it accepted. */
  predicate Initial(w: World) {
    && Formed(w) && w.faults == NoFaults && w.origin == 0
    && var c, s := w.client, w.server;
       && c.credits == 0 && c.pending == [] && !c.arrived && !c.asking && !c.waiting && c.calls == 0 && !c.halted
       && c.image.None? && c.flush.None? && !c.directWrite
       && s.credits == 1 && s.pending == [] && !s.arrived && s.task == Resting && !s.halted
       && s.region.None? && s.mr.None? && s.keys == []
       && s.handled == s.finished == s.sends == 0
       && (ReadOffer(s.sendBl).Unreadable? || ReadOffer(s.sendBl).Refused?)  // not an INIT reply by accident
  }
}
