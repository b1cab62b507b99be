/**
 When the size and flush type a client takes are not the region's.  A reply says what the region was
 when it left the server's buffer; it is wrong when it is read if the region changed in between.
 */
module HandshakeFit {
  import opened Bytes
  import opened Wire
  import opened Handshake
  import opened HandshakeSafety
  import opened HandshakeBalance

  // ---------------------------------------------------------------- one reply

  predicate NoDelivery(es: seq<Event>) {
    forall e <- es :: !e.ToClient?
  }

  lemma {:induction false} BufferStays(w: World, es: seq<Event>)
    requires Formed(w) && Run(w, es).Some? && NoDelivery(es)
    ensures Run(w, es).value.client.recvBl == w.client.recvBl
    decreases |es|
  {
    hide ReadOffer, Encode, Begin, TakeReply;
    if es == [] {
    } else {
      assert es[0] in es;
      if es[0].Return? {
        TakesReply(w.client, w.plan[w.client.calls - 1]);
      }
      BufferStays(Step(w, es[0]), es[1..]);
    }
  }

  /** The last delivery to the client splits a run. */
  lemma {:induction false} LastDelivery(w: World, es: seq<Event>) returns (pre: seq<Event>, mid: seq<Event>)
    requires Formed(w) && Run(w, es).Some? && !NoDelivery(es)
    ensures es == pre + [ToClient] + mid && NoDelivery(mid)
    ensures Run(w, pre).Some? && Enabled(Run(w, pre).value, ToClient)
    ensures Run(Step(Run(w, pre).value, ToClient), mid) == Run(w, es)
    decreases |es|
  {
    hide Step, Enabled, Formed;
    if NoDelivery(es[1..]) {
      pre, mid := [], es[1..];
      assert es == [es[0]] + es[1..];
    } else {
      var p, m := LastDelivery(Step(w, es[0]), es[1..]);
      pre, mid := [es[0]] + p, m;
      assert es == [es[0]] + (p + [ToClient] + m);
      assert pre[1..] == p;
    }
  }

  lemma {:induction false} ArrivedWasDelivered(w: World, es: seq<Event>)
    requires Formed(w) && Run(w, es).Some? && NoDelivery(es) && !w.client.arrived
    ensures !Run(w, es).value.client.arrived
    decreases |es|
  {
    hide ReadOffer, Encode, Begin, TakeReply;
    if es == [] {
    } else {
      assert es[0] in es;
      ArrivedWasDelivered(Step(w, es[0]), es[1..]);
    }
  }

  /** The client is about to read a reply to an INIT call and will take its flush type. */
  predicate TakesFlushType(w: World)
    requires Formed(w)
  {
    && Enabled(w, Return) && w.plan[w.client.calls - 1].InitRequest?
    && Accepts(w.client, ReadOffer(w.client.recvBl))
  }

  /**
   In every run: what the client takes was the server's region when the reply left the buffer, so it is
   wrong if and only if the region changed before the reply was read.
   */
  lemma MisfitIffRegionChanged(w: World, es: seq<Event>) returns (pre: seq<Event>, mid: seq<Event>)
    requires Initial(w) && Run(w, es).Some? && TakesFlushType(Run(w, es).value)
    ensures es == pre + [ToClient] + mid && NoDelivery(mid) && Run(w, pre).Some?
    ensures var sent, t := Run(w, pre).value, Run(w, es).value;
            && sent.server.region.Some?
            && (Step(t, Return).faults.misfit <==> t.faults.misfit || t.server.region != sent.server.region)
  {
    hide Encode, ReadOffer, Step;
    pre, mid := LastReply(w, es);
    InitialBalanced(w);
    RunBalanced(w, pre);
    ReturnJudges(Run(w, es).value);
  }

  /** The reply about to be taken is the one the server's buffer held at the last delivery. */
  lemma LastReply(w: World, es: seq<Event>) returns (pre: seq<Event>, mid: seq<Event>)
    requires Initial(w) && Run(w, es).Some? && TakesFlushType(Run(w, es).value)
    ensures es == pre + [ToClient] + mid && NoDelivery(mid) && Run(w, pre).Some?
    ensures Enabled(Run(w, pre).value, ToClient)
    ensures Run(Step(Run(w, pre).value, ToClient), mid) == Run(w, es)
    ensures Run(w, es).value.client.recvBl == Run(w, pre).value.server.sendBl
    ensures ReadOffer(Run(w, pre).value.server.sendBl).Offer?
  {
    hide Encode, ReadOffer, Begin, TakeReply, Step;
    if NoDelivery(es) {
      ArrivedWasDelivered(w, es);
    }
    pre, mid := LastDelivery(w, es);
    var sent := Run(w, pre).value;
    InitialBalanced(w);
    RunBalanced(w, pre);
    BufferStays(Step(sent, ToClient), mid);
    DeliveredBuffer(sent);
  }

  lemma DeliveredBuffer(w: World)
    requires Formed(w) && Enabled(w, ToClient)
    ensures Step(w, ToClient).client.recvBl == w.server.sendBl
  {
  }

  lemma ReturnJudges(w: World)
    requires Formed(w) && Enabled(w, Return)
    ensures Step(w, Return).faults.misfit <==>
            w.faults.misfit || (TakesFlushType(w) && !Matches(ReadOffer(w.client.recvBl), w.server.region))
  {
    hide ReadOffer, TakeReply;
  }

  /**
   What the client makes of an offer: region and peer configuration are taken in any case, the flush type
   only if the image fits, and nothing else changes; a refusal changes nothing but ends the call.
   */
  lemma TakenAsRead(w: World)
    requires Formed(w) && Enabled(w, Return) && w.plan[w.client.calls - 1].InitRequest?
    ensures var c, f := w.client, ReadOffer(w.client.recvBl);
            var t := Step(w, Return).client;
            && (f.Offer? ==>
                  t == c.(arrived := false, waiting := false, ret := 0,
                          image := Some(Remote(f.size, f.key)),
                          directWrite := if f.direct.Some? then f.direct.value else c.directWrite,
                          flush := if f.size < c.imageSize then c.flush
                                   else if f.direct == Some(true) then Some(Persistent) else Some(Visibility)))
            && (f.Refused? ==> t == c.(arrived := false, waiting := false, ret := 0))
  {
    hide ReadOffer, DecodePlain;
  }
}
