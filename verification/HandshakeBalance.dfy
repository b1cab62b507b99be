/**
 What every run keeps, whatever the client calls and in whatever order: receives, requests and
 replies are counted exactly, and every request the server reads is one of the client's calls.
 */
module HandshakeBalance {
  import opened Bytes
  import opened Wire
  import opened Handshake
  import opened HandshakeSafety

  function One(b: bool): nat {
    if b then 1 else 0
  }

  /** A posted receive is filled before its callback runs, so neither side ever has two. */
  predicate ReceivesCounted(c: Client, s: Server) {
    && c.credits + One(c.arrived) == One(c.waiting && !c.halted)
    && s.credits + One(s.arrived) + One(s.task == MustReceive) == One(!s.halted)
    && (s.halted ==> s.task == Resting)
  }

  /** Every call is still to be sent, on its way, at the server, or dealt with; every reply sent is on its way or taken. */
  predicate MessagesCounted(c: Client, s: Server) {
    && (c.waiting ==> c.calls > 0)
    && c.calls == One(c.asking) + |c.pending| + One(s.arrived) + One(s.halted) + Dealt(s)
    && s.finished <= Dealt(s) && s.sends == s.handled + s.finished
    && s.sends + One(c.waiting && !c.halted && !c.arrived) == c.calls + |s.pending|
  }

  /** The client's buffer holds its last call, and the server's the call `origin` names, which is none it has dealt with. */
  predicate RequestsKnown(w: World)
    requires Formed(w)
  {
    var c, s := w.client, w.server;
    && (c.calls > 0 ==> At(c.sendBl, 0, Encode(RequestMessage(w.plan[c.calls - 1]))))
    && Dealt(s) + One(s.arrived) <= w.origin
    && (s.arrived ==> At(s.recvBl, 0, Encode(RequestMessage(w.plan[w.origin - 1]))))
  }

  /** Every reply that waits answers a request the server has dealt with. */
  predicate RepliesKnown(s: Server) {
    forall p <- s.pending :: p.answers <= Dealt(s)
  }

  predicate Balanced(w: World) {
    && Formed(w)
    && Matches(ReadOffer(w.server.sendBl), w.server.region)
    && ReceivesCounted(w.client, w.server) && MessagesCounted(w.client, w.server) && RequestsKnown(w)
    && RepliesKnown(w.server)
    && !w.faults.early
  }

  lemma InitialBalanced(w: World)
    requires Initial(w)
    ensures Balanced(w)
  {
  }

  lemma ReturnMoves(w: World)
    requires Balanced(w) && Enabled(w, Return)
    ensures Balanced(Step(w, Return))
  {
    hide ReadOffer, Encode, TakeReply;
    TakesReply(w.client, w.plan[w.client.calls - 1]);
  }

  lemma ClientMoves(w: World, e: Event)
    requires Balanced(w) && Enabled(w, e) && (e.Call? || e.Submit?)
    ensures Balanced(Step(w, e))
  {
    hide ReadOffer, Encode;
  }

  lemma ToServerMoves(w: World)
    requires Balanced(w) && Enabled(w, ToServer)
    ensures Balanced(Step(w, ToServer))
  {
    hide ReadOffer, Encode;
  }

  lemma ToClientMoves(w: World)
    requires Balanced(w) && Enabled(w, ToClient)
    ensures Balanced(Step(w, ToClient))
  {
    hide ReadOffer, Encode;
  }

  /** What the server's callback does to a request it reads. */
  lemma HandleShape(w: World, o: Outcome)
    requires Balanced(w) && Enabled(w, Handle(o))
    ensures w.server.credits == 0 && 0 < w.origin <= |w.plan|
    ensures var r := w.plan[w.origin - 1];
            var s := w.server;
            var t := Step(w, Handle(o)).server;
            && Matches(ReadOffer(t.sendBl), t.region)
            && !t.arrived && t.credits == 0 && t.handled == s.handled
            && if t.halted then t == s.(arrived := false, halted := true) && s.region.None? && r.InitRequest?
               else
                 && t.task == MustReceive
                 && t.finished == s.finished + One(r.FinishRequest?)
                 && t.sends == s.sends + One(r.FinishRequest?)
                 && t.pending == s.pending + (if r.FinishRequest? then [Posted(t.sendBl, s.handled + 1)] else [])
                 && (r.FinishRequest? ==> t.region.None?)
                 && (r.InitRequest? ==>
                       && t.region.Some?
                       && (if s.region.Some? then t.region == s.region
                           else t.region.value.size == r.info.cacheSize))
  {
    hide ReadOffer, Encode, Begin;
    var r := w.plan[w.origin - 1];
    assert r in w.plan;
    Begins(w.server.(arrived := false), r, o);
  }

  lemma HandleMoves(w: World, o: Outcome)
    requires Balanced(w) && Enabled(w, Handle(o))
    ensures Balanced(Step(w, Handle(o)))
  {
    hide ReadOffer, Encode, Begin;
    HandleShape(w, o);
  }

  lemma ServerMoves(w: World, e: Event)
    requires Balanced(w) && Enabled(w, e) && (e.PostNext? || e.Respond?)
    ensures Balanced(Step(w, e))
  {
    hide ReadOffer, Encode;
  }

  lemma StepBalanced(w: World, e: Event)
    requires Balanced(w) && Enabled(w, e)
    ensures Balanced(Step(w, e))
  {
    hide Balanced, Step;
    match e
    case Call => ClientMoves(w, e);
    case Submit => ClientMoves(w, e);
    case Return => ReturnMoves(w);
    case ToServer => ToServerMoves(w);
    case ToClient => ToClientMoves(w);
    case Handle(o) => HandleMoves(w, o);
    case PostNext => ServerMoves(w, e);
    case Respond => ServerMoves(w, e);
  }

  lemma {:induction false} RunBalanced(w: World, es: seq<Event>)
    requires Balanced(w) && Run(w, es).Some?
    ensures Balanced(Run(w, es).value)
    decreases |es|
  {
    hide ReceivesCounted, MessagesCounted, RequestsKnown, RepliesKnown, ReadOffer, Step;
    if es == [] {
    } else {
      StepBalanced(w, es[0]);
      RunBalanced(Step(w, es[0]), es[1..]);
    }
  }

  /**
   In every run, whatever the client calls and whatever fails: neither side reads its receive buffer
   while a receive into it is posted, and receives, requests and replies are counted exactly.
   */
  lemma CreditsBalance(w: World, es: seq<Event>)
    requires Initial(w) && Run(w, es).Some?
    ensures var t := Run(w, es).value;
            !t.faults.early && ReceivesCounted(t.client, t.server) && MessagesCounted(t.client, t.server)
  {
    hide ReadOffer, Encode;
    InitialBalanced(w);
    RunBalanced(w, es);
  }

  /** A buffer read with a receive posted into it would be marked, on either side, and no mark is taken back. */
  lemma EarlyReadsMarked(w: World, e: Event)
    requires Formed(w) && Enabled(w, e)
    ensures (e.Handle? && w.server.credits > 0) || (e.Return? && w.client.credits > 0) ==> Step(w, e).faults.early
    ensures var f, g := w.faults, Step(w, e).faults;
            && (f.overwritten ==> g.overwritten) && (f.altered ==> g.altered) && (f.early ==> g.early)
            && (f.stale ==> g.stale) && (f.misfit ==> g.misfit)
  {
    hide ReadOffer, Encode, Begin, TakeReply, CopiesReply;
  }

  // ---------------------------------------------------------------- what a call returns

  /** The reply ends the call: it can be read, and does not refuse a region where there never was one. */
  predicate Ends(c: Client, r: Request) {
    match r
    case InitRequest(_) => !ReadOffer(c.recvBl).Unreadable? && (ReadOffer(c.recvBl).NoRegion? ==> c.image.Some?)
    case FinishRequest => DecodePlain(c.recvBl, 0).Ok?
  }

  /**
   In every run, when a reply is read: the call ends exactly if the reply can be read.  Then
   `init_replica` returns 0, also where the image is too large or the reply refuses, and `close_replica`
   0 exactly on a reply of success; otherwise the client waits on.
   */
  lemma CallReports(w: World, es: seq<Event>)
    requires Initial(w) && Run(w, es).Some? && Enabled(Run(w, es).value, Return)
    ensures var t := Run(w, es).value;
            var r := t.plan[t.client.calls - 1];
            var after := Step(t, Return).client;
            if Ends(t.client, r) then
              && !after.halted && !after.waiting
              && after.ret == (if r.InitRequest? || DecodePlain(t.client.recvBl, 0).value == FINISHED_SUCCEEDED then 0 else -1)
            else after.halted && after.waiting && after.ret == t.client.ret
  {
    hide ReadOffer, Encode, DecodePlain;
    InitialBalanced(w);
    RunBalanced(w, es);
  }

  /** Between two replies read, what the last call returned stands. */
  lemma {:induction false} ResultStays(w: World, es: seq<Event>)
    requires Formed(w) && Run(w, es).Some? && forall e <- es :: !e.Return?
    ensures Run(w, es).value.client.ret == w.client.ret
    decreases |es|
  {
    hide ReadOffer, Encode, Begin, TakeReply;
    if es == [] {
    } else {
      assert es[0] in es;
      ResultStays(Step(w, es[0]), es[1..]);
    }
  }
}
