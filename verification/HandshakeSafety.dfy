/**
 What runs of the exchange keep.  As long as no call follows a FINISHED one, the two nodes move through
 the phases below and nothing goes wrong.
 */
module HandshakeSafety {
  import opened Bytes
  import opened Wire
  import opened Handshake

  // ---------------------------------------------------------------- what the nodes read

  lemma UnpackPacked(mr: seq<byte>, pcfg: seq<byte>)
    requires |mr| < TWO32 && |pcfg| < TWO32
    ensures Unpack(Pack(mr, pcfg)) == Some((mr, pcfg))
  {
    assert (mr + pcfg)[..|mr|] == mr && (mr + pcfg)[|mr|..|mr| + |pcfg|] == pcfg;
  }

  /**
   The slices the client hands to librpma are byte for byte what the server got from it, over any
   stale buffer, for all sizes that fit a message.
   */
  lemma DescriptorTransport(mr: seq<byte>, pcfg: seq<byte>, ty: i32, stale: seq<byte>)
    requires |mr| + |pcfg| <= 4067 && |stale| == MSG_SIZE
    ensures var m := Message.Reply(ty, Pack(mr, pcfg));
            && |Encode(m)| < MSG_SIZE
            && DecodeReply(Overwrite(stale, Encode(m)), 0) == Ok(m, |Encode(m)|)
            && Unpack(m.desc) == Some((mr, pcfg))
  {
    var m := Message.Reply(ty, Pack(mr, pcfg));
    FrameSizes(m);
    RoundTrip(m, Overwrite(stale, Encode(m)), 0);
    UnpackPacked(mr, pcfg);
  }

  lemma ReadsRegion(r: Region, key: Key)
    requires |key| <= 4057
    ensures ReadDescriptors(InitReply(r, key).desc) == Offer.Offer(Some(r.pmem), r.size, key)
  {
    var mr, pcfg := MrDescriptor(r, key), PeerConfig(r.pmem);
    UnpackPacked(mr, pcfg);
    assert mr[..8] == ToLE(r.size, 8) && mr[9..] == key;
    U64RoundTrip(r.size);
  }

  /** A client reads from a reply exactly the region and the registration it was built for. */
  lemma ReadsReply(r: Region, key: Key, buf: seq<byte>)
    requires |key| <= 4057 && At(buf, 0, Encode(InitReply(r, key)))
    ensures ReadOffer(buf) == Offer.Offer(Some(r.pmem), r.size, key)
  {
    var m := InitReply(r, key);
    assert DecodeReply(buf, 0) == Ok(m, |Encode(m)|) by {
      ReplyFits(r, key);
      RoundTrip(m, buf, 0);
    }
    ReadsRegion(r, key);
  }

  lemma ReadsNoOffer(ty: i32, buf: seq<byte>)
    requires At(buf, 0, Encode(Plain(ty)))
    ensures ReadOffer(buf) == Unreadable
  {
    PlainIsNeverInitOrReply(ty, buf, 0);
  }

  lemma ReadsRequest(r: Request, buf: seq<byte>)
    requires Sendable(r) && At(buf, 0, Encode(RequestMessage(r)))
    ensures DecodePlain(buf, 0) == Ok(RequestMessage(r).ty, |Encode(RequestMessage(r))|)
    ensures r.InitRequest? ==> DecodeInit(buf, 0) == Ok(RequestMessage(r), |Encode(RequestMessage(r))|)
  {
    Peek(RequestMessage(r), buf, 0);
    RoundTrip(RequestMessage(r), buf, 0);
  }

  /** A region descriptor librpma refuses: the peer configuration is applied all the same, and the client goes on with the region it had. */
  lemma RefusedRegionIgnored(c: Client, mr: seq<byte>, pcfg: seq<byte>, i: CacheInfo)
    requires |mr| < 9 && |pcfg| == 1 && At(c.recvBl, 0, Encode(Message.Reply(INIT_SUCCEEDED, Pack(mr, pcfg))))
    requires c.image.Some? && !c.halted
    ensures var t := TakeReply(c, InitRequest(i));
            && !t.halted && t.ret == 0 && t.image == c.image && t.directWrite == (pcfg[0] != 0)
            && t.flush == if c.image.value.size < c.imageSize then c.flush
                          else Some(if pcfg[0] != 0 then Persistent else Visibility)
  {
    var m := Message.Reply(INIT_SUCCEEDED, Pack(mr, pcfg));
    FrameSizes(m);
    RoundTrip(m, c.recvBl, 0);
    UnpackPacked(mr, pcfg);
    hide DecodeReply, Encode, Unpack;
    assert ReadOffer(c.recvBl) == NoRegion(Some(pcfg[0] != 0));
  }

  /** What cannot be decoded stops the server, before anything else happens; an unknown type is passed over. */
  lemma MalformedStops(s: Server, o: Outcome)
    requires |s.sendBl| == MSG_SIZE && |o.key| <= 4057 && !s.halted
    ensures var ty := DecodePlain(s.recvBl, 0);
            && (ty.Fail? ==> Begin(s, o) == s.(halted := true))
            && (ty.Ok? && ty.value == INIT_REQUEST && DecodeInit(s.recvBl, 0).Fail? ==> Begin(s, o) == s.(halted := true))
            && (ty.Ok? && ty.value != INIT_REQUEST && ty.value != FINISHED_REQUEST ==>
                  Begin(s, o) == s.(task := MustReceive))
  {
    hide DecodePlain, DecodeInit, Encode, ReadOffer;
  }

  // ---------------------------------------------------------------- phases

  /** No call was made after a FINISHED one. */
  predicate Clean(w: World)
    requires Formed(w)
  {
    forall i | 0 <= i < w.client.calls - 1 :: w.plan[i].InitRequest?
  }

  predicate Finishing(w: World)
    requires Formed(w)
  {
    w.client.calls > 0 && w.plan[w.client.calls - 1].FinishRequest?
  }

  /** `n` copies of the reply to the current request are posted. */
  predicate Copies(w: World, n: nat) {
    && |w.server.pending| == n
    && forall p <- w.server.pending :: p == Posted(w.server.sendBl, w.client.calls)
  }

  // ------------------------------------------------ what the server is doing about the current request

  /** It has not got it. */
  predicate ServerWaits(w: World) {
    var s := w.server;
    !s.halted && s.task == Resting && s.credits == 1 && !s.arrived && s.handled + 1 == w.client.calls && s.pending == []
  }

  /** It stands in the receive buffer. */
  predicate ServerHolds(w: World)
    requires Formed(w) && w.client.calls > 0
  {
    var s := w.server;
    && !s.halted && s.task == Resting && s.credits == 0 && s.arrived && s.handled + 1 == w.client.calls && s.pending == []
    && At(s.recvBl, 0, Encode(RequestMessage(w.plan[w.client.calls - 1])))
  }

  /** The callback has handled it and not ended. */
  predicate ServerBusy(w: World, copies: nat) {
    var s := w.server;
    && !s.halted && !s.arrived && s.handled + 1 == w.client.calls
    && ((s.task == MustReceive && s.credits == 0) || (s.task == MustSend && s.credits == 1))
    && Copies(w, copies)
  }

  /** It has been dealt with; so it is before the first call. */
  predicate ServerDone(w: World, copies: nat) {
    var s := w.server;
    && !s.halted && s.task == Resting && s.credits == 1 && !s.arrived && s.handled == w.client.calls
    && Copies(w, copies)
  }

  /** The reply is out: the callback has ended, or, for a FINISHED request, has sent its first copy. */
  predicate ServerReplied(w: World)
    requires Formed(w)
  {
    ServerDone(w, if Finishing(w) then 1 else 0) || (Finishing(w) && ServerBusy(w, 0))
  }

  // ------------------------------------------------ and the client

  predicate ClientIdle(c: Client) {
    !c.halted && !c.asking && !c.waiting && c.pending == [] && c.credits == 0 && !c.arrived
  }

  predicate ClientWaits(c: Client) {
    !c.halted && c.waiting && c.calls > 0 && c.credits == 1 && !c.arrived
  }

  // ------------------------------------------------ together

  predicate Idle(w: World)
    requires Formed(w)
  {
    ClientIdle(w.client) && ServerReplied(w)
  }

  predicate Prepared(w: World)
    requires Formed(w)
  {
    var c := w.client;
    && ClientWaits(c) && c.asking && c.pending == [] && ServerWaits(w)
    && At(c.sendBl, 0, Encode(RequestMessage(w.plan[c.calls - 1])))
  }

  predicate Asked(w: World)
    requires Formed(w)
  {
    var c := w.client;
    && ClientWaits(c) && !c.asking && c.pending == [c.sendBl] && ServerWaits(w)
    && At(c.sendBl, 0, Encode(RequestMessage(w.plan[c.calls - 1])))
  }

  predicate AtServer(w: World)
    requires Formed(w)
  {
    ClientWaits(w.client) && !w.client.asking && w.client.pending == [] && ServerHolds(w)
  }

  predicate Working(w: World)
    requires Formed(w)
  {
    ClientWaits(w.client) && !w.client.asking && w.client.pending == [] && ServerBusy(w, if Finishing(w) then 1 else 0)
  }

  predicate Answered(w: World)
    requires Formed(w)
  {
    ClientWaits(w.client) && !w.client.asking && w.client.pending == [] && ServerDone(w, if Finishing(w) then 2 else 1)
  }

  predicate AtClient(w: World)
    requires Formed(w)
  {
    var c := w.client;
    && !c.halted && !c.asking && c.waiting && c.calls > 0 && c.pending == [] && c.credits == 0 && c.arrived
    && c.recvBl == w.server.sendBl
    && ServerReplied(w)
  }

  /** The server threw: the client waits for good. */
  predicate Stuck(w: World)
    requires Formed(w)
  {
    var c, s := w.client, w.server;
    && ClientWaits(c) && !c.asking && c.pending == []
    && s.halted && s.task == Resting && s.pending == [] && s.handled + 1 == c.calls
  }

  /** The client threw on a reply it could not read: nothing reaches it any more. */
  predicate Dead(w: World)
    requires Formed(w)
  {
    var c := w.client;
    c.halted && !c.asking && c.pending == [] && c.credits == 0 && !c.arrived && ServerReplied(w)
  }

  /** Requests whose effect has happened, those being dealt with included. */
  function Dealt(s: Server): nat {
    if s.task == Resting then s.handled else s.handled + 1
  }

  /** The region is the one the first request asked for, from then until a FINISHED request. */
  predicate RegionRule(w: World)
    requires Formed(w)
  {
    var s := w.server;
    && Dealt(s) <= w.client.calls
    && if Dealt(s) == 0 || w.plan[Dealt(s) - 1].FinishRequest? then s.region.None?
       else s.region.Some? && w.plan[0].InitRequest? && s.region.value.size == w.plan[0].info.cacheSize
  }

  /** The size the client checks against is that of its last INIT call. */
  predicate ImageRule(w: World)
    requires Formed(w)
  {
    w.client.calls > 0 && w.plan[w.client.calls - 1].InitRequest? ==>
      w.client.imageSize == w.plan[w.client.calls - 1].info.cacheSize
  }

  /** The flush type is the one the region is registered for, and the connection supports it. */
  predicate FlushRule(w: World) {
    var c, s := w.client, w.server;
    c.flush.Some? ==>
      && Dealt(s) > 0
      && (s.region.Some? ==> forall f: FlushType :: Allows(Usage(s.region.value), f) <==> c.flush.value == f)
      && (c.flush.value == Persistent ==> c.directWrite)
  }

  predicate Phases(w: World)
    requires Formed(w)
  {
    Idle(w) || Prepared(w) || Asked(w) || AtServer(w) || Working(w) || Answered(w) || AtClient(w) || Stuck(w) || Dead(w)
  }

  predicate Inv(w: World) {
    && Formed(w) && w.faults == NoFaults
    && Matches(ReadOffer(w.server.sendBl), w.server.region)
    && RegionRule(w) && ImageRule(w) && FlushRule(w)
    && Phases(w)
  }

  // ---------------------------------------------------------------- one step

  lemma CallKeeps(w: World)
    requires Inv(w) && Enabled(w, Call) && Clean(Step(w, Call))
    ensures Inv(Step(w, Call)) && Prepared(Step(w, Call))
  {
    hide ReadOffer, Encode;
    assert Idle(w);
    var t := Step(w, Call);
    if w.client.calls > 0 {
      assert t.plan[w.client.calls - 1].InitRequest?;
    }
  }

  lemma SubmitKeeps(w: World)
    requires Inv(w) && Enabled(w, Submit)
    ensures Inv(Step(w, Submit)) && Asked(Step(w, Submit))
  {
    hide ReadOffer, Encode;
    assert Prepared(w);
  }

  lemma ToServerKeeps(w: World)
    requires Inv(w) && Enabled(w, ToServer)
    ensures Inv(Step(w, ToServer)) && AtServer(Step(w, ToServer))
  {
    hide ReadOffer, Encode;
    assert Asked(w);
  }

  /** The receive is posted before the reply: the server's next step cannot find the client ahead of it. */
  lemma PostNextKeeps(w: World)
    requires Inv(w) && Enabled(w, PostNext)
    ensures Inv(Step(w, PostNext))
    ensures Working(w) ==> Working(Step(w, PostNext))
  {
    hide ReadOffer, Encode;
    assert Working(w) || (Finishing(w) && ServerBusy(w, 0));
  }

  lemma RespondKeeps(w: World)
    requires Inv(w) && Enabled(w, Respond)
    ensures Inv(Step(w, Respond))
    ensures Working(w) ==> Answered(Step(w, Respond))
  {
    hide ReadOffer, Encode;
    assert Working(w) || (Finishing(w) && ServerBusy(w, 0));
  }

  lemma ToClientKeeps(w: World)
    requires Inv(w) && Enabled(w, ToClient)
    ensures Inv(Step(w, ToClient)) && AtClient(Step(w, ToClient))
  {
    hide ReadOffer, Encode;
    assert Answered(w) || (Finishing(w) && Working(w));
    var s := w.server;
    assert s.pending[0] in s.pending;
    assert forall p <- s.pending[1..] :: p in s.pending;
  }

  lemma ReturnKeeps(w: World)
    requires Inv(w) && Enabled(w, Return)
    ensures Inv(Step(w, Return)) && AtClient(w)
  {
    hide ReadOffer, Encode, DecodePlain;
    assert AtClient(w);
    ReturnFrom(w);
  }

  lemma ReturnFrom(w: World)
    requires Formed(w) && AtClient(w) && FlushRule(w)
    requires Matches(ReadOffer(w.server.sendBl), w.server.region)
    ensures var t := Step(w, Return);
            && t.faults == w.faults && t.server == w.server && t.client.calls == w.client.calls
            && t.client.imageSize == w.client.imageSize && FlushRule(t)
            && (Idle(t) || Dead(t))
  {
    hide ReadOffer, Encode, DecodePlain;
    if w.server.region.Some? {
      var r := w.server.region.value;
      UsageAllowsOne(r);
      assert Allows(Usage(r), Persistent) <==> r.pmem;
    }
  }

  /** A region is registered for writes into it and for exactly one flush type, by its kind of memory, and for nothing else. */
  lemma UsageAllowsOne(r: Region)
    ensures Usage(r) == if r.pmem then 0x28 else 0x18
    ensures forall f: FlushType :: Allows(Usage(r), f) <==> f == if r.pmem then Persistent else Visibility
  {
  }

  // ---------------------------------------------------------------- the server's step

  /** A request the server can read: it halts, or handles it; a FINISHED one is answered a first time at once. */
  lemma Begins(s: Server, r: Request, o: Outcome)
    requires |s.sendBl| == MSG_SIZE && |o.key| <= 4057 && !s.halted && s.task == Resting
    requires Sendable(r) && At(s.recvBl, 0, Encode(RequestMessage(r)))
    requires Matches(ReadOffer(s.sendBl), s.region)
    ensures var t := Begin(s, o);
            && Matches(ReadOffer(t.sendBl), t.region)
            && t.arrived == s.arrived && t.credits == s.credits && t.handled == s.handled
            && if t.halted then t == s.(halted := true) && s.region.None? && r.InitRequest?
               else
                 && t.task == MustReceive
                 && t.finished == s.finished + (if r.FinishRequest? then 1 else 0)
                 && t.sends == s.sends + (if r.FinishRequest? then 1 else 0)
                 && t.pending == s.pending + (if r.FinishRequest? then [Posted(t.sendBl, s.handled + 1)] else [])
                 && (r.FinishRequest? ==> t.region.None?)
                 && (r.InitRequest? ==>
                       && t.region.Some?
                       && (if s.region.Some? then t.region == s.region
                           else t.region.value.size == r.info.cacheSize))
  {
    hide ReadOffer, Encode, DecodeInit, DecodePlain;
    ReadsRequest(r, s.recvBl);
    match r
    case InitRequest(i) => SetsUp(s, i, o);
    case FinishRequest => Closes(s, o);
  }

  lemma SetsUp(s: Server, i: CacheInfo, o: Outcome)
    requires |s.sendBl| == MSG_SIZE && |o.key| <= 4057 && !s.halted
    requires DecodeInit(s.recvBl, 0).Ok? && DecodeInit(s.recvBl, 0).value.info == i
    requires Matches(ReadOffer(s.sendBl), s.region)
    ensures var t := Setup(s, o);
            && Matches(ReadOffer(t.sendBl), t.region)
            && if t.halted then t == s.(halted := true) && s.region.None?
               else
                 && t == s.(region := t.region, mr := t.mr, keys := t.keys, sendBl := t.sendBl)
                 && t.region.Some?
                 && (if s.region.Some? then t.region == s.region else t.region.value.size == i.cacheSize)
  {
    hide ReadOffer, Encode, DecodeInit;
    if s.region.Some? || o.alloc.Some? {
      var r := if s.region.Some? then s.region.value else Region(i.cacheSize, o.alloc.value);
      if o.registered && (r.pmem ==> o.configured) {
        ReplyFits(r, o.key);
        ReadsReply(r, o.key, Overwrite(s.sendBl, Encode(InitReply(r, o.key))));
      }
    }
  }

  lemma Closes(s: Server, o: Outcome)
    requires |s.sendBl| == MSG_SIZE
    ensures var t := Close(s, o);
            && ReadOffer(t.sendBl) == Unreadable
            && t == s.(region := None, mr := None, finished := s.finished + 1, sendBl := t.sendBl,
                       pending := s.pending + [Posted(t.sendBl, s.handled + 1)], sends := s.sends + 1)
  {
    FrameSizes(FinishedReply(s, o));
    ReadsNoOffer(FinishedReply(s, o).ty, Close(s, o).sendBl);
  }

  /** A request that copies no reply leaves the send buffer as it was. */
  lemma UncopiedStays(s: Server, o: Outcome)
    requires |s.sendBl| == MSG_SIZE && |o.key| <= 4057 && !CopiesReply(s, o)
    ensures Begin(s, o).sendBl == s.sendBl
  {
    hide ReadOffer, Encode, DecodePlain, DecodeInit;
  }

  /** What a request does to registration and reply. */
  lemma Renews(s: Server, o: Outcome)
    requires |s.sendBl| == MSG_SIZE && |o.key| <= 4057 && !s.halted
    ensures var t := Begin(s, o);
            if Registers(s, o) then
              && t.mr == Some(o.key) && t.keys == s.keys + [o.key]
              && (if LeavesOldReply(s, o) then t.sendBl == s.sendBl
                  else ReadOffer(t.sendBl).Offer? && ReadOffer(t.sendBl).key == o.key)
            else
              && t.keys == s.keys
              && ((t.mr == s.mr && t.sendBl == s.sendBl) || (t.mr.None? && ReadOffer(t.sendBl) == Unreadable))
  {
    hide ReadOffer, Encode, DecodePlain, DecodeInit, Setup, Close;
    if DecodePlain(s.recvBl, 0).Ok? && DecodePlain(s.recvBl, 0).value == INIT_REQUEST {
      SetupRenews(s, o);
    }
    Closes(s, o);
  }

  lemma SetupRenews(s: Server, o: Outcome)
    requires |s.sendBl| == MSG_SIZE && |o.key| <= 4057 && !s.halted
    requires DecodePlain(s.recvBl, 0).Ok? && DecodePlain(s.recvBl, 0).value == INIT_REQUEST
    ensures var t := Setup(s, o);
            if Registers(s, o) then
              && t.mr == Some(o.key) && t.keys == s.keys + [o.key]
              && (if LeavesOldReply(s, o) then t.sendBl == s.sendBl
                  else ReadOffer(t.sendBl).Offer? && ReadOffer(t.sendBl).key == o.key)
            else t.keys == s.keys && t.mr == s.mr && t.sendBl == s.sendBl
  {
    hide ReadOffer, Encode, DecodePlain, DecodeInit;
    if Registers(s, o) && !LeavesOldReply(s, o) {
      var r := if s.region.Some? then s.region.value
               else Region(DecodeInit(s.recvBl, 0).value.info.cacheSize, o.alloc.value);
      ReplyFits(r, o.key);
      ReadsReply(r, o.key, Overwrite(s.sendBl, Encode(InitReply(r, o.key))));
    }
  }

  lemma HandleKeeps(w: World, o: Outcome)
    requires Inv(w) && Enabled(w, Handle(o)) && Clean(w)
    ensures Inv(Step(w, Handle(o))) && AtServer(w)
    ensures Working(Step(w, Handle(o))) || Stuck(Step(w, Handle(o)))
  {
    hide ReadOffer, Encode, Begin;
    assert AtServer(w);
    var r := w.plan[w.client.calls - 1];
    assert r in w.plan;
    Begins(w.server.(arrived := false), r, o);
    assert w.client.calls > 1 ==> w.plan[w.client.calls - 2].InitRequest?;
  }

  lemma StepKeeps(w: World, e: Event)
    requires Inv(w) && Enabled(w, e) && Clean(w) && Clean(Step(w, e))
    ensures Inv(Step(w, e))
  {
    hide Inv, Step, Clean;
    match e
    case Call => CallKeeps(w);
    case Submit => SubmitKeeps(w);
    case ToServer => ToServerKeeps(w);
    case Handle(o) => HandleKeeps(w, o);
    case PostNext => PostNextKeeps(w);
    case Respond => RespondKeeps(w);
    case ToClient => ToClientKeeps(w);
    case Return => ReturnKeeps(w);
  }

  /** A callback of the client changes none of its buffers and counts. */
  lemma TakesReply(c: Client, r: Request)
    ensures var t := TakeReply(c, r);
            && t == c.(arrived := false, waiting := t.waiting, image := t.image, flush := t.flush,
                       directWrite := t.directWrite, ret := t.ret, halted := t.halted)
            && (!t.halted ==> !t.waiting) && (t.waiting ==> c.waiting)
  {
    hide ReadOffer, DecodePlain, TakeOffer;
  }

  lemma StepCalls(w: World, e: Event)
    requires Formed(w) && Enabled(w, e)
    ensures Step(w, e).client.calls == w.client.calls + if e.Call? then 1 else 0
  {
    hide ReadOffer, Encode, Begin, TakeReply, CopiesReply;
    if e.Return? {
      TakesReply(w.client, w.plan[w.client.calls - 1]);
    }
  }

  /** Calls only add up, so a world that ends clean was clean all along. */
  lemma {:induction false} CleanBefore(w: World, es: seq<Event>)
    requires Formed(w) && Run(w, es).Some? && Clean(Run(w, es).value)
    ensures Clean(w) && w.client.calls <= Run(w, es).value.client.calls
    decreases |es|
  {
    hide Step;
    if es == [] {
    } else {
      StepCalls(w, es[0]);
      CleanBefore(Step(w, es[0]), es[1..]);
    }
  }

  lemma {:induction false} RunKeeps(w: World, es: seq<Event>)
    requires Inv(w) && Run(w, es).Some? && Clean(Run(w, es).value)
    ensures Inv(Run(w, es).value)
    decreases |es|
  {
    hide Step, Clean;
    CleanBefore(w, es);
    if es == [] {
    } else {
      var t := Step(w, es[0]);
      CleanBefore(t, es[1..]);
      StepKeeps(w, es[0]);
      RunKeeps(t, es[1..]);
    }
  }

  lemma InitialInv(w: World)
    requires Initial(w)
    ensures Inv(w)
  {
  }

  // ---------------------------------------------------------------- main results

  /** What the invariant says of buffers and receives. */
  predicate Covered(w: World)
    requires Formed(w)
  {
    var c, s := w.client, w.server;
    // what leaves a buffer is what was posted
    && (forall b <- c.pending :: b == c.sendBl)
    && (forall p <- s.pending :: p.bytes == s.sendBl)
    // a request about to leave or on its way finds a posted receive, and so does the reply to it
    && (c.asking || c.pending != [] ==> s.credits == 1)
    && (c.waiting && !c.halted && !c.arrived ==> c.credits == 1)
    // a reply without a receive is exactly the second copy that follows a FINISHED request
    && (|s.pending| > c.credits <==> Finishing(w) && s.handled == c.calls)
  }

  /**
   Every run in which no call follows a FINISHED one: no fault, every message finds its receive, and
   at all times the client's flush type is one the region is registered for and the connection supports.
   */
  lemma CleanRunsAreSafe(w: World, es: seq<Event>)
    requires Initial(w) && Run(w, es).Some? && Clean(Run(w, es).value)
    ensures Run(w, es).value.faults == NoFaults
    ensures Covered(Run(w, es).value)
    ensures FlushRule(Run(w, es).value)
  {
    hide ReadOffer, Encode;
    InitialInv(w);
    RunKeeps(w, es);
  }

  /**
   After every INIT reply the client takes, its flush type is the one the server's region was
   registered for, and it takes a reply exactly when its image is no larger than the first request's.
   */
  lemma AcceptsIffNoLarger(w: World, es: seq<Event>)
    requires Initial(w) && Run(w, es).Some? && Clean(Run(w, es).value)
    requires var t := Run(w, es).value;
             Enabled(t, Return) && t.plan[t.client.calls - 1].InitRequest? && ReadOffer(t.client.recvBl).Offer?
    ensures var t := Run(w, es).value;
            var f := ReadOffer(t.client.recvBl);
            && t.server.region.Some? && t.plan[0].InitRequest?
            && f.direct == Some(t.server.region.value.pmem)
            && f.size == t.server.region.value.size == t.plan[0].info.cacheSize
            && (Accepts(t.client, f) <==> t.plan[t.client.calls - 1].info.cacheSize <= t.plan[0].info.cacheSize)
            && (Accepts(t.client, f) ==>
                  Step(t, Return).client.flush == Some(if t.server.region.value.pmem then Persistent else Visibility))
  {
    hide ReadOffer, Encode;
    InitialInv(w);
    RunKeeps(w, es);
    var t := Run(w, es).value;
    assert AtClient(t);
  }

  lemma HonestStep(s: Server, o: Outcome)
    requires |s.sendBl| == MSG_SIZE && |o.key| <= 4057 && !s.halted
    requires Matches(ReadOffer(s.sendBl), s.region)
    ensures Matches(ReadOffer(Begin(s, o).sendBl), Begin(s, o).region)
  {
    hide ReadOffer, Encode, DecodePlain, DecodeInit, Setup, Close;
    if DecodePlain(s.recvBl, 0).Ok? && DecodePlain(s.recvBl, 0).value == INIT_REQUEST {
      HonestSetup(s, o);
    }
    Closes(s, o);
  }

  lemma HonestSetup(s: Server, o: Outcome)
    requires |s.sendBl| == MSG_SIZE && |o.key| <= 4057 && !s.halted
    requires Matches(ReadOffer(s.sendBl), s.region)
    ensures Matches(ReadOffer(Setup(s, o).sendBl), Setup(s, o).region)
  {
    hide ReadOffer, Encode, DecodeInit;
    if DecodeInit(s.recvBl, 0).Ok? {
      SetsUp(s, DecodeInit(s.recvBl, 0).value.info, o);
    }
  }

  /**
   In every run, whatever the client asks and whatever fails: an INIT reply in the server's send
   buffer gives the size and the kind of memory of the region the server has now.
   */
  lemma {:induction false} ServerIsHonest(w: World, es: seq<Event>)
    requires Formed(w) && Matches(ReadOffer(w.server.sendBl), w.server.region) && Run(w, es).Some?
    ensures Matches(ReadOffer(Run(w, es).value.server.sendBl), Run(w, es).value.server.region)
    decreases |es|
  {
    hide ReadOffer, Encode, Begin, TakeReply;
    if es == [] {
    } else {
      if es[0].Handle? {
        HonestStep(w.server.(arrived := false), es[0].o);
      }
      ServerIsHonest(Step(w, es[0]), es[1..]);
    }
  }

  lemma StepCounts(w: World, e: Event)
    requires Formed(w) && Enabled(w, e) && w.server.sends == w.server.handled + w.server.finished
    ensures var s := Step(w, e).server; s.sends == s.handled + s.finished
  {
    hide ReadOffer, Encode, DecodePlain, DecodeInit;
  }

  /** Over every run: one send for each request handled, and one more for each FINISHED request handled. */
  lemma {:induction false} SendsCounted(w: World, es: seq<Event>)
    requires Formed(w) && w.server.sends == w.server.handled + w.server.finished && Run(w, es).Some?
    ensures var s := Run(w, es).value.server; s.sends == s.handled + s.finished
    decreases |es|
  {
    hide Step;
    if es == [] {
    } else {
      StepCounts(w, es[0]);
      SendsCounted(Step(w, es[0]), es[1..]);
    }
  }
}
