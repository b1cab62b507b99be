/**
 The server on its own, over every sequence of requests it handles one after the other: what size it
 advertises, and how region and registration of the exchange are the block and registration of `Region`.
 */
module ServerHistory {
  import opened Bytes
  import opened Wire
  import opened Handshake
  import HandshakeSafety
  import R = Region

  /** A request arrives over whatever the receive buffer holds, and is dealt with. */
  function Serve(s: Server, r: Request, o: Outcome): (t: Server)
    requires |s.sendBl| == |s.recvBl| == MSG_SIZE && Sendable(r) && |o.key| <= 4057
    ensures |t.sendBl| == |t.recvBl| == MSG_SIZE
  {
    DealRequire(s.(recvBl := Overwrite(s.recvBl, Encode(RequestMessage(r)))), o)
  }

  datatype Turn = Turn(request: Request, outcome: Outcome)

  predicate Fine(turns: seq<Turn>) {
    forall j | 0 <= j < |turns| :: Sendable(turns[j].request) && |turns[j].outcome.key| <= 4057
  }

  function ServeAll(s: Server, turns: seq<Turn>): (t: Server)
    requires |s.sendBl| == |s.recvBl| == MSG_SIZE && Fine(turns)
    ensures |t.sendBl| == |t.recvBl| == MSG_SIZE
  {
    if turns == [] then s
    else
      var last := turns[|turns| - 1];
      Serve(ServeAll(s, turns[..|turns| - 1]), last.request, last.outcome)
  }

  /** The foreign calls of a turn all succeed. */
  predicate Succeeds(o: Outcome) {
    o.alloc.Some? && o.registered && o.configured
  }

  predicate AllSucceed(turns: seq<Turn>) {
    forall j | 0 <= j < |turns| :: Succeeds(turns[j].outcome)
  }

  lemma ServesInit(s: Server, i: CacheInfo, o: Outcome)
    requires |s.sendBl| == |s.recvBl| == MSG_SIZE && Sendable(InitRequest(i)) && |o.key| <= 4057
    requires !s.halted && Succeeds(o)
    ensures var t := Serve(s, InitRequest(i), o);
            && !t.halted
            && t.region == Some(if s.region.Some? then s.region.value else Region(i.cacheSize, o.alloc.value))
            && t.mr == Some(o.key)
            && ReadOffer(t.sendBl) == Offer.Offer(Some(t.region.value.pmem), t.region.value.size, o.key)
  {
    hide ReadOffer, Encode, DecodePlain, DecodeInit;
    var got := s.(recvBl := Overwrite(s.recvBl, Encode(RequestMessage(InitRequest(i)))));
    HandshakeSafety.ReadsRequest(InitRequest(i), got.recvBl);
    var r := if s.region.Some? then s.region.value else Region(i.cacheSize, o.alloc.value);
    ReplyFits(r, o.key);
    HandshakeSafety.ReadsReply(r, o.key, Overwrite(s.sendBl, Encode(InitReply(r, o.key))));
  }

  lemma ServesFinish(s: Server, o: Outcome)
    requires |s.sendBl| == |s.recvBl| == MSG_SIZE && |o.key| <= 4057 && !s.halted
    requires Sendable(FinishRequest)
    ensures var t := Serve(s, FinishRequest, o);
            && !t.halted && t.region.None? && t.mr.None? && ReadOffer(t.sendBl) == Unreadable
            && DecodePlain(t.sendBl, 0).Ok?
            && (DecodePlain(t.sendBl, 0).value == FINISHED_SUCCEEDED <==> s.region.None? || o.removed)
  {
    hide ReadOffer, Encode, DecodePlain;
    var got := s.(recvBl := Overwrite(s.recvBl, Encode(RequestMessage(FinishRequest))));
    HandshakeSafety.ReadsRequest(FinishRequest, got.recvBl);
    HandshakeSafety.Closes(got, o);
    var m := FinishedReply(got, o);
    FrameSizes(m);
    Peek(m, Overwrite(got.sendBl, Encode(m)), 0);
  }

  /** `close_replica` returns 0 exactly when the server had no region or removed its file. */
  lemma CloseReplicaReports(s: Server, o: Outcome, c: Client)
    requires |s.sendBl| == |s.recvBl| == MSG_SIZE && |o.key| <= 4057 && !s.halted
    requires Sendable(FinishRequest) && c.recvBl == Serve(s, FinishRequest, o).sendBl
    ensures TakeReply(c, FinishRequest).ret == 0 <==> s.region.None? || o.removed
    ensures TakeReply(c, FinishRequest).halted == c.halted
  {
    hide ReadOffer, DecodePlain, Serve;
    ServesFinish(s, o);
  }

  /**
   A setup that fails on the way: the region stays or is made all the same, and what is sent is what
   the send buffer held before.  If it was registered before the failure, the registration that
   stood before has ended.
   */
  lemma FailedSetupResends(s: Server, i: CacheInfo, o: Outcome)
    requires |s.sendBl| == |s.recvBl| == MSG_SIZE && Sendable(InitRequest(i)) && |o.key| <= 4057
    requires !s.halted && (s.region.Some? || o.alloc.Some?)
    requires var pmem := if s.region.Some? then s.region.value.pmem else o.alloc.value;
             !o.registered || (pmem && !o.configured)
    ensures var t := Serve(s, InitRequest(i), o);
            && !t.halted && t.sendBl == s.sendBl && t.credits == s.credits + 1
            && t.region == Some(if s.region.Some? then s.region.value else Region(i.cacheSize, o.alloc.value))
            && t.mr == (if o.registered then Some(o.key) else s.mr)
            && t.pending == s.pending + [Posted(s.sendBl, s.handled + 1)]
  {
    hide ReadOffer, Encode, DecodePlain, DecodeInit;
    var got := s.(recvBl := Overwrite(s.recvBl, Encode(RequestMessage(InitRequest(i)))));
    HandshakeSafety.ReadsRequest(InitRequest(i), got.recvBl);
  }

  /** Turn `k` is the INIT that opened the region the server has after all of them. */
  predicate Opened(turns: seq<Turn>, k: nat) {
    && k < |turns|
    && (k == 0 || turns[k - 1].request.FinishRequest?)
    && forall j | k <= j < |turns| :: turns[j].request.InitRequest?
  }

  /** The region as the turn that opened it asked for it and got it. */
  function OpenedRegion(turns: seq<Turn>, k: nat): Region
    requires Opened(turns, k) && AllSucceed(turns)
  {
    Region(turns[k].request.info.cacheSize, turns[k].outcome.alloc.value)
  }

  lemma {:induction false} NeverHalts(s: Server, turns: seq<Turn>)
    requires |s.sendBl| == |s.recvBl| == MSG_SIZE && Fine(turns) && !s.halted
    requires AllSucceed(turns)
    ensures !ServeAll(s, turns).halted
    ensures turns != [] && turns[|turns| - 1].request.FinishRequest? ==> ServeAll(s, turns).region.None?
  {
    hide Serve, ReadOffer;
    if turns == [] {
    } else {
      var front, last := turns[..|turns| - 1], turns[|turns| - 1];
      NeverHalts(s, front);
      match last.request
      case InitRequest(i) => ServesInit(ServeAll(s, front), i, last.outcome);
      case FinishRequest => ServesFinish(ServeAll(s, front), last.outcome);
    }
  }

  /**
   Over every sequence of INIT and FINISHED requests whose foreign calls succeed: an INIT reply gives
   the size of the first INIT since the last FINISHED, the kind of memory that one got, and the
   registration the region has now.
   */
  lemma {:induction false} AdvertisedSize(s: Server, turns: seq<Turn>, k: nat)
    requires |s.sendBl| == |s.recvBl| == MSG_SIZE && Fine(turns) && !s.halted && s.region.None?
    requires AllSucceed(turns)
    requires Opened(turns, k)
    ensures var r := OpenedRegion(turns, k);
            && ServeAll(s, turns).region == Some(r)
            && ServeAll(s, turns).mr.Some?
            && ReadOffer(ServeAll(s, turns).sendBl) == Offer.Offer(Some(r.pmem), r.size, ServeAll(s, turns).mr.value)
  {
    hide Serve, ReadOffer;
    var front, last := turns[..|turns| - 1], turns[|turns| - 1];
    NeverHalts(s, front);
    if k < |turns| - 1 {
      assert Opened(front, k) && OpenedRegion(front, k) == OpenedRegion(turns, k);
      AdvertisedSize(s, front, k);
    } else if k > 0 {
      assert front[k - 1] == turns[k - 1];
    }
    ServesInit(ServeAll(s, front), last.request.info, last.outcome);
  }

  /** A client's check of the reply passes for the request that opened the region, and later exactly for no larger ones. */
  lemma SizeCheck(s: Server, turns: seq<Turn>, k: nat, c: Client)
    requires |s.sendBl| == |s.recvBl| == MSG_SIZE && Fine(turns) && !s.halted && s.region.None?
    requires AllSucceed(turns)
    requires Opened(turns, k) && c.imageSize == turns[|turns| - 1].request.info.cacheSize
    ensures Accepts(c, ReadOffer(ServeAll(s, turns).sendBl)) <==>
            turns[|turns| - 1].request.info.cacheSize <= turns[k].request.info.cacheSize
  {
    hide ReadOffer, ServeAll;
    AdvertisedSize(s, turns, k);
  }

  // ---------------------------------------------------------------- the region's block

  const TWO64 := 0x1_0000_0000_0000_0000

  /** The region as the exchange sees it. */
  function Seen(s: R.State): Option<Region>
    requires s.size < TWO64
  {
    if s.data.None? then None else Some(Region(s.size, s.isPmem))
  }

  /** What `init` obtains, as one outcome. */
  function Obtained(e: R.Event): Option<bool>
    requires e.Setup?
  {
    if e.mapped.Map? && e.mapped.persistent && e.mapped.len == e.size then Some(true)
    else if e.heap.Some? then Some(false)
    else None
  }

  /** The registration as the exchange sees it: its key. */
  function SeenMr(s: R.State, key: R.Mr -> Key): Option<Key> {
    if s.mr.None? then None else Some(key(s.mr.value))
  }

  /** The exchange and the memory manager look at the same request and the same foreign calls. */
  predicate SameCalls(e: R.Event, key: R.Mr -> Key, s: Server, o: Outcome) {
    e.Setup? ==>
      && DecodeInit(s.recvBl, 0).Ok? && DecodeInit(s.recvBl, 0).value.info.cacheSize == e.size
      && o.alloc == Obtained(e) && o.registered == e.reg.Some? && (o.registered ==> o.key == key(e.reg.value))
  }

  /** `init` on a request the program survives, or on a block that is there already. */
  function Held(b: R.State, e: R.Event): R.State
    requires e.Setup?
  {
    if b.data.None? then R.Init(b, e.size, e.mapped, e.heap) else b
  }

  lemma BlockHeld(b: R.State, e: R.Event)
    requires e.Setup? && e.size < TWO64 && b.size < TWO64
    ensures Held(b, e).size < TWO64 && Held(b, e).mr == b.mr
    ensures Seen(Held(b, e)) == if Seen(b).Some? then Seen(b)
                                else if Obtained(e).None? then None
                                else Some(Region(e.size, Obtained(e).value))
  {
  }

  lemma BlockRegistered(b: R.State, reg: Option<R.Mr>, key: R.Mr -> Key)
    requires b.size < TWO64
    ensures var t := R.RegisterBlock(b, reg);
            && t.size == b.size && Seen(t) == Seen(b)
            && SeenMr(t, key) == if b.data.None? || reg.None? then SeenMr(b, key) else Some(key(reg.value))
  {
  }

  /** Block and registration move as the exchange says they do, for every outcome of the foreign calls. */
  lemma RegionIsBlock(b: R.State, e: R.Event, key: R.Mr -> Key, s: Server, o: Outcome)
    requires |s.sendBl| == MSG_SIZE && |o.key| <= 4057
    requires b.size < TWO64 && s.region == Seen(b) && s.mr == SeenMr(b, key)
    requires SameCalls(e, key, s, o)
    ensures R.Step(b, e).size < TWO64
    ensures var t := if e.Setup? then Setup(s, o) else Close(s, o);
            t.region == Seen(R.Step(b, e)) && t.mr == SeenMr(R.Step(b, e), key)
  {
    hide DecodeInit, Encode, ReadOffer, Overwrite, InitReply, R.Init, R.RegisterBlock;
    if e.Setup? {
      BlockHeld(b, e);
      BlockRegistered(Held(b, e), e.reg, key);
    }
  }

  /**
   A region of pmem that is registered once more and then not configured: the reply that goes out is
   the one before, and the registration it names is one librpma no longer has.
   */
  lemma EndedRegistrationAdvertised(b: R.State, e: R.Event, key: R.Mr -> Key, s: Server, i: CacheInfo, o: Outcome)
    requires |s.sendBl| == |s.recvBl| == MSG_SIZE && Sendable(InitRequest(i)) && |o.key| <= 4057 && !s.halted
    requires b.size < TWO64 && s.region == Seen(b) && s.mr == SeenMr(b, key)
    requires R.Kept(b) && R.Unused(b, e) && b.mr.Some? && b.isPmem
    requires e.Setup? && e.reg.Some? && o.registered && !o.configured && o.key == key(e.reg.value)
    ensures var t := Serve(s, InitRequest(i), o);
            && t.sendBl == s.sendBl && t.pending == s.pending + [Posted(s.sendBl, s.handled + 1)]
            && s.mr == Some(key(b.mr.value)) && t.mr == Some(key(e.reg.value))
    ensures R.Registered(b, b.mr.value)
    ensures !R.Registered(R.Step(b, e), b.mr.value) && R.Registered(R.Step(b, e), e.reg.value)
  {
    hide ReadOffer, Encode, DecodePlain, DecodeInit, Serve, R.Step;
    FailedSetupResends(s, i, o);
    R.NewRegistrationEndsOld(b, e);
  }
}
