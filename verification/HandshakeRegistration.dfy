/**
 Which registration a reply names.  An INIT request registers the region anew, which ends the
 registration before it; if the peer configuration then fails, the reply that goes out is the old
 one, and names a registration that has ended.
 */
module HandshakeRegistration {
  import opened Bytes
  import opened Wire
  import opened Handshake
  import opened HandshakeSafety
  import opened HandshakeBalance
  import opened HandshakeFit
  import opened HandshakeLag
  import opened HandshakeFaults

  /** The last request that registered the region left the reply before it in the buffer. */
  predicate Lapsed(w: World, es: seq<Event>, before: bool)
    requires Formed(w) && Run(w, es).Some?
    decreases |es|
  {
    if es == [] then before
    else
      var now := if es[0].Handle? && Registers(w.server, es[0].o) then LeavesOldReply(w.server, es[0].o) else before;
      Lapsed(Step(w, es[0]), es[1..], now)
  }

  /** The current registration is the last one made; a reply names it, or one before it. */
  predicate Named(s: Server, lapsed: bool) {
    && (s.mr.Some? ==> s.keys != [] && s.mr.value == s.keys[|s.keys| - 1])
    && (ReadOffer(s.sendBl).Offer? ==>
          && s.mr.Some?
          && if lapsed then ReadOffer(s.sendBl).key in s.keys[..|s.keys| - 1]
             else ReadOffer(s.sendBl).key == s.mr.value)
  }

  lemma HandleNamed(s: Server, o: Outcome, lapsed: bool)
    requires |s.sendBl| == MSG_SIZE && |o.key| <= 4057 && !s.halted && Named(s, lapsed)
    ensures Named(Begin(s, o), if Registers(s, o) then LeavesOldReply(s, o) else lapsed)
  {
    hide ReadOffer, Begin, Registers, LeavesOldReply;
    Renews(s, o);
    var t := Begin(s, o);
    if Registers(s, o) {
      assert t.keys[..|t.keys| - 1] == s.keys;
    }
  }

  lemma OthersKeep(w: World, e: Event)
    requires Formed(w) && Enabled(w, e) && !e.Handle?
    ensures var s, t := w.server, Step(w, e).server;
            t.mr == s.mr && t.keys == s.keys && t.sendBl == s.sendBl
  {
    hide ReadOffer, Encode, TakeReply;
  }

  lemma {:induction false} RunNamed(w: World, es: seq<Event>, before: bool)
    requires Formed(w) && Run(w, es).Some? && Named(w.server, before)
    ensures Named(Run(w, es).value.server, Lapsed(w, es, before))
    decreases |es|
  {
    hide ReadOffer, Encode, Begin, Registers, LeavesOldReply, TakeReply;
    if es == [] {
    } else {
      if es[0].Handle? {
        HandleNamed(w.server.(arrived := false), es[0].o, before);
        SameRequest(w.server, es[0].o);
      } else {
        OthersKeep(w, es[0]);
      }
      var now := if es[0].Handle? && Registers(w.server, es[0].o) then LeavesOldReply(w.server, es[0].o) else before;
      RunNamed(Step(w, es[0]), es[1..], now);
    }
  }

  lemma SameRequest(s: Server, o: Outcome)
    ensures Registers(s.(arrived := false), o) == Registers(s, o)
    ensures Registers(s, o) ==> LeavesOldReply(s.(arrived := false), o) == LeavesOldReply(s, o)
  {
  }

  /**
   In every run, whatever the client calls and whatever fails: an INIT reply in the server's buffer
   names the registration the region has now if and only if the last request that registered it did
   not fail afterwards.
   */
  lemma ReplyNamesRegistrationIff(w: World, es: seq<Event>)
    requires Initial(w) && Run(w, es).Some?
    requires var s := Run(w, es).value.server; ReadOffer(s.sendBl).Offer? && Distinct(s.keys)
    ensures var s := Run(w, es).value.server;
            s.mr.Some? && (s.mr.value == ReadOffer(s.sendBl).key <==> !Lapsed(w, es, false))
  {
    hide ReadOffer, Encode, Run, Lapsed;
    RunNamed(w, es, false);
  }

  // ---------------------------------------------------------------- the client's side

  lemma {:induction false} KeysGrow(w: World, es: seq<Event>)
    requires Formed(w) && Run(w, es).Some?
    ensures w.server.keys <= Run(w, es).value.server.keys
    decreases |es|
  {
    hide ReadOffer, Encode, Begin, Registers, LeavesOldReply, TakeReply;
    if es == [] {
    } else {
      if es[0].Handle? {
        Renews(w.server.(arrived := false), es[0].o);
      } else {
        OthersKeep(w, es[0]);
      }
      KeysGrow(Step(w, es[0]), es[1..]);
    }
  }

  /** The region the client takes is named by a live registration: no new one and no FINISHED since the reply left. */
  predicate StillRegistered(sent: Server, now: Server) {
    now.keys == sent.keys && now.mr.Some?
  }

  /**
   In every run: the `_image_mr` a client takes from a reply names the server's current registration if
   and only if the reply named the current one when it left and the registration has stood since.
   */
  lemma ImageNamesRegistrationIff(w: World, es: seq<Event>) returns (pre: seq<Event>, mid: seq<Event>)
    requires Initial(w) && Run(w, es).Some? && TakesFlushType(Run(w, es).value)
    requires Distinct(Run(w, es).value.server.keys)
    ensures es == pre + [ToClient] + mid && NoDelivery(mid) && Run(w, pre).Some?
    ensures var sent, t := Run(w, pre).value, Run(w, es).value;
            var image := Step(t, Return).client.image;
            && image.Some?
            && (t.server.mr == Some(image.value.key) <==>
                  !Lapsed(w, pre, false) && StillRegistered(sent.server, t.server))
  {
    hide Encode, ReadOffer, Step, Lapsed, Named;
    pre, mid := LastReply(w, es);
    var sent, t := Run(w, pre).value, Run(w, es).value;
    RunNamed(w, pre, false) by {
      StartsNamed(w);
    }
    RunNamed(w, es, false) by {
      StartsNamed(w);
    }
    OthersKeep(sent, ToClient);
    KeysGrow(Step(sent, ToClient), mid);
    TakenAsRead(t);
    KeyCompared(sent.server, t.server, Lapsed(w, pre, false), Lapsed(w, es, false));
  }

  lemma StartsNamed(w: World)
    requires Initial(w)
    ensures Named(w.server, false)
  {
  }

  lemma KeyCompared(sent: Server, now: Server, lapsed: bool, lapsedNow: bool)
    requires Named(sent, lapsed) && Named(now, lapsedNow) && ReadOffer(sent.sendBl).Offer?
    requires sent.keys <= now.keys && Distinct(now.keys)
    ensures now.mr == Some(ReadOffer(sent.sendBl).key) <==> !lapsed && StillRegistered(sent, now)
  {
    hide ReadOffer;
    var k := ReadOffer(sent.sendBl).key;
    if lapsed {
      var i :| 0 <= i < |sent.keys| - 1 && sent.keys[i] == k;
      assert now.keys[i] == k;
    } else {
      assert now.keys[|sent.keys| - 1] == k;
    }
  }

  /** Without a call after a FINISHED one nothing happens to the registration before the reply is read. */
  lemma CleanImageIff(w: World, es: seq<Event>)
    requires Initial(w) && Run(w, es).Some? && Clean(Run(w, es).value) && TakesFlushType(Run(w, es).value)
    requires Distinct(Run(w, es).value.server.keys)
    ensures var t := Run(w, es).value;
            var image := Step(t, Return).client.image;
            image.Some? && (t.server.mr == Some(image.value.key) <==> !Lapsed(w, es, false))
  {
    hide Encode, ReadOffer, Step, Lapsed;
    var t := Run(w, es).value;
    InitialInv(w);
    RunKeeps(w, es);
    assert AtClient(t);
    TakenAsRead(t);
    ReplyNamesRegistrationIff(w, es);
  }

  // ---------------------------------------------------------------- a reply that names an ended registration

  /** The region is registered again, with a key it does not have, and then not configured. */
  function Renewed(s: Server, n: nat): Outcome {
    Well(if s.mr == Some(ToLE(n, 8)) then [] else ToLE(n, 8)).(configured := false)
  }

  const RequestGoes: seq<Event> := [Call] + ([Submit] + ([ToServer] + []))

  const ReplyComes: seq<Event> := [PostNext] + ([Respond] + ([ToClient] + []))

  /** The client is about to take a region whose registration has ended. */
  predicate TakesEnded(w: World) {
    && Formed(w) && TakesFlushType(w) && ReadOffer(w.client.recvBl).Offer?
    && w.server.mr != Some(ReadOffer(w.client.recvBl).key)
  }

  /** An INIT call for a region the server has, up to the moment its reply is read. */
  lemma RepeatsInit(w: World, n: nat, r: Region, o: Outcome)
    requires Lagging(w, n) && Offers(w.server, r) && r.pmem && w.client.calls < |w.plan|
    requires w.plan[w.client.calls].InitRequest? && w.plan[w.client.calls].info.cacheSize <= r.size
    requires |o.key| <= 4057 && o.registered && !o.configured && w.server.mr != Some(o.key)
    ensures var es := RequestGoes + ([Handle(o)] + ReplyComes);
            && Run(w, es).Some? && TakesEnded(Run(w, es).value)
            && Run(w, es).value.server.keys == w.server.keys + [o.key]
  {
    hide ReadOffer, Encode, DecodePlain, Begin, Step, Prepare, RequestGoes, ReplyComes, At;
    var request := w.plan[w.client.calls];
    assert request in w.plan;
    Delivers(w, n);
    var c := Run(w, RequestGoes).value;
    RegistersAgain(Holding(w), request, o);
    HandleBegins(c, o);
    var d := Step(c, Handle(o));
    CallbackEnds(d);
    SpareDelivered(Step(Step(d, PostNext), Respond));
    Answers(d);
    RunCons(c, Handle(o), ReplyComes);
    RunConcat(w, RequestGoes, [Handle(o)] + ReplyComes);
  }

  lemma RegistersAgain(s: Server, r: Request, o: Outcome)
    requires |s.sendBl| == MSG_SIZE && |o.key| <= 4057 && !s.halted && s.region.Some? && s.region.value.pmem
    requires r.InitRequest? && Sendable(r) && At(s.recvBl, 0, Encode(RequestMessage(r)))
    requires o.registered && !o.configured
    ensures Begin(s, o) == s.(mr := Some(o.key), keys := s.keys + [o.key], task := MustReceive)
  {
    hide ReadOffer, Encode, DecodePlain, DecodeInit;
    ReadsRequest(r, s.recvBl);
  }

  lemma Delivers(w: World, n: nat)
    requires Lagging(w, n) && w.client.calls < |w.plan|
    ensures Run(w, RequestGoes).Some?
    ensures var c := Run(w, RequestGoes).value;
            && c.plan == w.plan && c.client.calls == w.client.calls + 1
            && c.server == Holding(w).(arrived := true)
            && At(Holding(w).recvBl, 0, Encode(RequestMessage(w.plan[w.client.calls])))
            && ClientWaits(c.client) && !c.client.asking
            && (w.plan[w.client.calls].InitRequest? ==> c.client.imageSize == w.plan[w.client.calls].info.cacheSize)
  {
    hide ReadOffer, Encode, Step;
    assert w.plan[w.client.calls] in w.plan;
    Delivered(w, n);
    var a := Step(w, Call);
    var b := Step(a, Submit);
    var t3 := [ToServer] + [];
    RunCons(w, Call, [Submit] + t3);
    RunCons(a, Submit, t3);
    RunCons(b, ToServer, []);
  }

  lemma Answers(w: World)
    requires Formed(w) && Enabled(w, PostNext) && Enabled(Step(w, PostNext), Respond)
    requires Enabled(Step(Step(w, PostNext), Respond), ToClient)
    ensures Run(w, ReplyComes) == Some(Step(Step(Step(w, PostNext), Respond), ToClient))
  {
    hide Step, Enabled;
    var t3 := [ToClient] + [];
    RunCons(w, PostNext, [Respond] + t3);
    RunCons(Step(w, PostNext), Respond, t3);
    RunCons(Step(Step(w, PostNext), Respond), ToClient, []);
  }

  /** In some run, whose registrations all have keys of their own as long as numbers for them last. */
  ghost predicate MayTakeEnded(w: World)
    requires Formed(w)
  {
    exists es ::
      && Run(w, es).Some? && TakesEnded(Run(w, es).value)
      && (|w.plan| <= TWO64 ==> Distinct(Run(w, es).value.server.keys))
  }

  lemma KeyIsNew(w: World, es: seq<Event>, n: nat)
    requires Initial(w) && Run(w, es).Some? && Numbered(Run(w, es).value.server.keys, n) && n < TWO64
    ensures var s := Run(w, es).value.server; Distinct(s.keys + [Renewed(s, n).key])
  {
    hide Run, ReadOffer, Lapsed;
    var s := Run(w, es).value.server;
    NextNumber(s.keys, n);
    StartsNamed(w);
    RunNamed(w, es, false);
    U64RoundTrip(n);
    assert s.mr.Some? ==> s.mr.value in s.keys;
  }

  /** Two INIT calls, the second for no more than the region has: it can be answered with a registration that has ended. */
  lemma EndedRegistrationAccepted(w: World, i: nat)
    requires Initial(w) && 0 < i < |w.plan| && w.plan[i - 1].InitRequest? && w.plan[i].InitRequest?
    requires w.plan[i].info.cacheSize <= w.plan[Opener(w.plan, i)].info.cacheSize
    ensures MayTakeEnded(w)
  {
    hide ReadOffer, Encode, DecodePlain, Step, RequestGoes, ReplyComes, TakesEnded;
    var a := Sync(w, i);
    var s := Run(w, a).value;
    var o := Renewed(s.server, i);
    RepeatsInit(s, Finishes(w.plan, i), Region(w.plan[Opener(w.plan, i)].info.cacheSize, true), o);
    var b := RequestGoes + ([Handle(o)] + ReplyComes);
    RunConcat(w, a, b);
    if |w.plan| <= TWO64 {
      KeyIsNew(w, a, i);
    }
    assert Run(w, a + b).Some?;
  }

  // ---------------------------------------------------------------- which plans

  lemma {:induction false} KeysCounted(w: World, es: seq<Event>)
    requires Balanced(w) && |w.server.keys| <= Dealt(w.server) && Run(w, es).Some?
    ensures |Run(w, es).value.server.keys| <= Dealt(Run(w, es).value.server)
    decreases |es|
  {
    hide ReadOffer, Encode, Step, MessagesCounted, RequestsKnown, ReceivesCounted, RepliesKnown;
    if es == [] {
    } else {
      StepBalanced(w, es[0]);
      KeyCounted(w, es[0]);
      KeysCounted(Step(w, es[0]), es[1..]);
    }
  }

  lemma KeyCounted(w: World, e: Event)
    requires Balanced(w) && Enabled(w, e) && |w.server.keys| <= Dealt(w.server)
    ensures |Step(w, e).server.keys| <= Dealt(Step(w, e).server)
  {
    hide ReadOffer, Encode, Begin, Registers, LeavesOldReply, TakeReply;
    if e.Handle? {
      HandleShape(w, e.o);
      Renews(w.server.(arrived := false), e.o);
    }
  }

  /** An INIT call after the first, for no more. */
  predicate Repeats(plan: seq<Request>) {
    exists i | 0 < i < |plan| ::
      plan[0].InitRequest? && plan[i].InitRequest? && plan[i].info.cacheSize <= plan[0].info.cacheSize
  }

  lemma {:induction false} OpenedFirst(plan: seq<Request>, n: nat)
    requires 0 < n <= |plan| && forall i | 0 <= i < n :: plan[i].InitRequest?
    ensures Opener(plan, n) == 0
  {
    if n > 1 {
      OpenedFirst(plan, n - 1);
    }
  }

  /** The reply that names an ended registration is not the first: two were made. */
  lemma EndedIsRepeated(w: World, es: seq<Event>)
    requires Initial(w) && FinishedLast(w.plan) && Run(w, es).Some? && TakesEnded(Run(w, es).value)
    ensures Repeats(w.plan)
  {
    hide ReadOffer, Encode, Step, Lapsed, MessagesCounted;
    var t := Run(w, es).value;
    InitialInv(w);
    RunKeeps(w, es);
    assert AtClient(t);
    AcceptsIffNoLarger(w, es);
    StartsNamed(w);
    RunNamed(w, es, false);
    InitialBalanced(w);
    KeysCounted(w, es);
    RunBalanced(w, es);
    MoreCallsThanDealt(t);
    assert |t.server.keys| >= 2;
    assert t.plan[t.client.calls - 1].info.cacheSize <= t.plan[0].info.cacheSize;
  }

  lemma MoreCallsThanDealt(w: World)
    requires Balanced(w)
    ensures Dealt(w.server) <= w.client.calls
  {
  }

  /**
   A client none of whose calls follows a FINISHED one can take a region whose registration has ended if
   and only if it repeats the first INIT call for no more.
   */
  lemma EndedIffRepeats(w: World)
    requires Initial(w) && FinishedLast(w.plan)
    ensures MayTakeEnded(w) <==> Repeats(w.plan)
  {
    hide ReadOffer, Encode, Run, TakesEnded;
    if MayTakeEnded(w) {
      var es :| Run(w, es).Some? && TakesEnded(Run(w, es).value)
                && (|w.plan| <= TWO64 ==> Distinct(Run(w, es).value.server.keys));
      EndedIsRepeated(w, es);
    }
    if Repeats(w.plan) {
      var i :| 0 < i < |w.plan| && w.plan[0].InitRequest? && w.plan[i].InitRequest?
               && w.plan[i].info.cacheSize <= w.plan[0].info.cacheSize;
      OpenedFirst(w.plan, i);
      EndedRegistrationAccepted(w, i);
    }
  }
}
