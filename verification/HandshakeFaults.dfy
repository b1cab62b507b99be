/**
 Which plans go wrong, fault by fault: a call answered by the reply to another, a message copied into
 a send buffer under a send that has not left, and one that changes the bytes there.
 */
module HandshakeFaults {
  import opened Bytes
  import opened Wire
  import opened Handshake
  import opened HandshakeSafety
  import opened HandshakeBalance
  import opened HandshakeLag

  /** A plan in which nothing follows a FINISHED call. */
  predicate FinishedLast(plan: seq<Request>) {
    forall i | 0 <= i < |plan| - 1 :: plan[i].InitRequest?
  }

  ghost predicate AlwaysSafe(w: World)
    requires Formed(w)
  {
    forall es | Run(w, es).Some? :: Run(w, es).value.faults == NoFaults
  }

  ghost predicate MayBeStale(w: World)
    requires Formed(w)
  {
    exists es :: Run(w, es).Some? && Run(w, es).value.faults.stale
  }

  ghost predicate MayOverwrite(w: World)
    requires Formed(w)
  {
    exists es :: Run(w, es).Some? && Run(w, es).value.faults.overwritten
  }

  ghost predicate MayAlter(w: World)
    requires Formed(w)
  {
    exists es :: Run(w, es).Some? && Run(w, es).value.faults.altered
  }

  // ---------------------------------------------------------------- after a FINISHED call

  const Overtaken: seq<Event> := [Call] + ([ToClient] + [])

  /** A reply to an earlier call answers the next one, before its request has even been sent. */
  lemma SecondCopyIsStale(w: World, n: nat)
    requires Balanced(w) && Lagging(w, n) && n > 0 && w.client.calls < |w.plan|
    ensures Run(w, Overtaken).Some? && Run(w, Overtaken).value.faults.stale
  {
    hide ReadOffer, Encode;
    var t := Step(w, Call);
    assert w.server.pending[0] in w.server.pending;
    RunCons(w, Call, [ToClient] + []);
    RunCons(t, ToClient, []);
  }

  const HandleNext: seq<Event> := [Call] + ([Submit] + ([ToServer] + ([Handle(Well([]))] + [])))

  /** A request handled while a reply waits. */
  lemma ServerOverwrites(w: World, n: nat)
    requires Lagging(w, n) && n > 0 && w.client.calls < |w.plan|
    ensures Run(w, HandleNext).Some? && Run(w, HandleNext).value.faults.overwritten
    ensures Begin(Holding(w), Well([])).sendBl != w.server.sendBl ==> Run(w, HandleNext).value.faults.altered
  {
    hide ReadOffer, Encode, DecodePlain, Begin, Step, Prepare;
    assert w.plan[w.client.calls] in w.plan;
    Delivered(w, n);
    var a := Step(w, Call);
    var b := Step(a, Submit);
    var c := Step(b, ToServer);
    assert c.server.(arrived := false) == Holding(w);
    Handles(Holding(w), w.plan[w.client.calls], []);
    HandledOver(c);
    var t4 := [Handle(Well([]))] + [];
    var t3 := [ToServer] + t4;
    RunCons(w, Call, [Submit] + t3);
    RunCons(a, Submit, t3);
    RunCons(b, ToServer, t4);
    RunCons(c, Handle(Well([])), []);
  }

  lemma HandledOver(w: World)
    requires Formed(w) && Enabled(w, Handle(Well([]))) && w.server.pending != []
    requires CopiesReply(w.server.(arrived := false), Well([]))
    ensures var t := Step(w, Handle(Well([])));
            && t.faults.overwritten
            && (Begin(w.server.(arrived := false), Well([])).sendBl != w.server.sendBl ==> t.faults.altered)
  {
    hide ReadOffer, Encode, DecodePlain, DecodeInit, Begin;
  }

  /** Any call after a FINISHED one can be answered by the reply to another, and have its reply copied over one that waits. */
  lemma FaultsAfterFinished(w: World, i: nat)
    requires Initial(w) && i + 1 < |w.plan| && w.plan[i].FinishRequest?
    ensures MayBeStale(w) && MayOverwrite(w)
  {
    hide ReadOffer, Encode, DecodePlain, Step, HandleNext, Overtaken;
    var es := Sync(w, i + 1);
    var t := Run(w, es).value;
    InitialBalanced(w);
    RunBalanced(w, es);
    SecondCopyIsStale(t, Finishes(t.plan, i + 1));
    ServerOverwrites(t, Finishes(t.plan, i + 1));
    RunConcat(w, es, HandleNext);
    RunConcat(w, es, Overtaken);
  }

  /**
   A client's calls are safe in every run, whatever the order of events and the outcome of the
   server's foreign calls, if and only if none of them follows a FINISHED one.  The same decides whether
   a call can be answered by the reply to another, and whether a message can be copied into a send
   buffer under a send that has not left.
   */
  lemma SafeIffFinishedLast(w: World)
    requires Initial(w)
    ensures AlwaysSafe(w) <==> FinishedLast(w.plan)
    ensures MayBeStale(w) <==> !FinishedLast(w.plan)
    ensures MayOverwrite(w) <==> !FinishedLast(w.plan)
  {
    hide Step, ReadOffer, Encode;
    if FinishedLast(w.plan) {
      forall es | Run(w, es).Some?
        ensures Run(w, es).value.faults == NoFaults
      {
        CleanRunsAreSafe(w, es);
      }
    } else {
      var i :| 0 <= i < |w.plan| - 1 && w.plan[i].FinishRequest?;
      FaultsAfterFinished(w, i);
    }
  }

  // ---------------------------------------------------------------- changed bytes

  /** Unless bytes were changed, every send that waits will leave as it was posted. */
  predicate Intact(w: World) {
    !w.faults.altered ==>
      && (forall b <- w.client.pending :: b == w.client.sendBl)
      && (forall p <- w.server.pending :: p.bytes == w.server.sendBl)
  }

  lemma HandleIntact(w: World, o: Outcome)
    requires Balanced(w) && Intact(w) && Enabled(w, Handle(o))
    ensures Intact(Step(w, Handle(o)))
  {
    hide ReadOffer, Encode, DecodePlain, DecodeInit, Begin;
    HandleShape(w, o);
    if !CopiesReply(w.server.(arrived := false), o) {
      UncopiedStays(w.server.(arrived := false), o);
    }
  }

  lemma StepIntact(w: World, e: Event)
    requires Balanced(w) && Intact(w) && Enabled(w, e) && !e.Handle?
    ensures Intact(Step(w, e))
  {
    hide ReadOffer, Encode, TakeReply;
    if e.Return? {
      TakesReply(w.client, w.plan[w.client.calls - 1]);
    }
    if e.ToServer? {
      assert forall b <- w.client.pending[1..] :: b in w.client.pending;
    }
    if e.ToClient? {
      assert forall p <- w.server.pending[1..] :: p in w.server.pending;
    }
  }

  /** In every run of any plan, whatever fails: unless bytes were changed, every message leaves as it was posted. */
  lemma {:induction false} LeavesAsPosted(w: World, es: seq<Event>)
    requires Balanced(w) && Intact(w) && Run(w, es).Some?
    ensures Intact(Run(w, es).value)
    decreases |es|
  {
    hide ReceivesCounted, MessagesCounted, RequestsKnown, RepliesKnown, ReadOffer, Step, Intact;
    if es == [] {
    } else {
      StepBalanced(w, es[0]);
      if es[0].Handle? {
        HandleIntact(w, es[0].o);
      } else {
        StepIntact(w, es[0]);
      }
      LeavesAsPosted(Step(w, es[0]), es[1..]);
    }
  }

  /** An INIT call after a FINISHED one: the INIT reply is copied over the second FINISHED reply. */
  lemma AltersByInit(w: World, i: nat)
    requires Initial(w) && i + 1 < |w.plan| && w.plan[i].FinishRequest? && w.plan[i + 1].InitRequest?
    ensures MayAlter(w)
  {
    hide ReadOffer, Encode, DecodePlain, Begin, Step, HandleNext;
    var es := Sync(w, i + 1);
    var t := Run(w, es).value;
    InitialBalanced(w);
    RunBalanced(w, es);
    assert t.plan[i + 1] in t.plan;
    Handles(Holding(t), t.plan[i + 1], []);
    ServerOverwrites(t, Finishes(t.plan, i + 1));
    RunConcat(w, es, HandleNext);
  }

  const NotRemoved: Outcome := Well([]).(removed := false)

  /** The reply to a FINISHED request says whether there was nothing to remove or it was removed. */
  lemma FinishAnswer(s: Server, o: Outcome)
    requires |s.sendBl| == MSG_SIZE && |o.key| <= 4057 && !s.halted
    requires At(s.recvBl, 0, Encode(RequestMessage(FinishRequest)))
    ensures var t := Begin(s, o);
            && !t.halted && t.credits == s.credits && t.arrived == s.arrived && t.task == MustReceive
            && |t.pending| == |s.pending| + 1 && t.region.None?
            && DecodePlain(t.sendBl, 0).Ok?
            && DecodePlain(t.sendBl, 0).value == (if s.region.None? || o.removed then FINISHED_SUCCEEDED else FINISHED_FAILED)
  {
    hide ReadOffer, Encode, DecodePlain;
    FrameSizes(RequestMessage(FinishRequest));
    ReadsRequest(FinishRequest, s.recvBl);
    FrameSizes(FinishedReply(s, o));
    Peek(FinishedReply(s, o), Close(s, o).sendBl, 0);
  }

  /** An INIT call and two FINISHED ones: the first cannot remove the file, the second has nothing to remove. */
  lemma AltersByFinish(w: World, i: nat)
    requires Initial(w) && i + 1 < |w.plan| && i > 0 && w.plan[i - 1].InitRequest?
    requires w.plan[i].FinishRequest? && w.plan[i + 1].FinishRequest?
    ensures MayAlter(w)
  {
    hide ReadOffer, Encode, DecodePlain, Begin, Step, HandleNext, Completed;
    var a := Sync(w, i);
    var s := Run(w, a).value;
    var n := Finishes(s.plan, i);
    FinishAnswer(Holding(s), NotRemoved);
    ExchangeWith(s, n, NotRemoved);
    var t := Run(s, Completed(NotRemoved)).value;
    FinishAnswer(Holding(t), Well([]));
    ServerOverwrites(t, n + 1);
    RunConcat(s, Completed(NotRemoved), HandleNext);
    RunConcat(w, a, Completed(NotRemoved) + HandleNext);
    var es := a + (Completed(NotRemoved) + HandleNext);
    assert Run(w, es).Some? && Run(w, es).value.faults.altered;
  }

  // ---------------------------------------------------------------- FINISHED calls alone

  predicate AllFinished(plan: seq<Request>) {
    forall i | 0 <= i < |plan| :: plan[i].FinishRequest?
  }

  /** All requests are the same, all are answered alike, and every copy leaves the bytes as they were. */
  predicate Alike(w: World) {
    && Balanced(w) && AllFinished(w.plan)
    && w.server.region.None? && !w.faults.altered
    && (w.server.finished > 0 ==> At(w.server.sendBl, 0, Encode(Plain(FINISHED_SUCCEEDED))))
    && w.server.finished == Dealt(w.server)
  }

  lemma FinishAlike(s: Server, o: Outcome)
    requires |s.sendBl| == MSG_SIZE && |o.key| <= 4057 && !s.halted && s.region.None?
    requires At(s.recvBl, 0, Encode(RequestMessage(FinishRequest)))
    ensures var t := Begin(s, o);
            && At(t.sendBl, 0, Encode(Plain(FINISHED_SUCCEEDED)))
            && (At(s.sendBl, 0, Encode(Plain(FINISHED_SUCCEEDED))) ==> t.sendBl == s.sendBl)
  {
    hide ReadOffer, Encode, DecodePlain;
    FrameSizes(RequestMessage(FinishRequest));
    ReadsRequest(FinishRequest, s.recvBl);
    FrameSizes(FinishedReply(s, o));
  }

  lemma HandleAlike(w: World, o: Outcome)
    requires Alike(w) && Enabled(w, Handle(o))
    ensures Alike(Step(w, Handle(o)))
  {
    hide ReadOffer, Encode, DecodePlain, DecodeInit, Begin;
    HandleShape(w, o);
    HandleMoves(w, o);
    FinishAlike(w.server.(arrived := false), o);
  }

  /** Copying what already stands at the front of a buffer changes nothing. */
  lemma SameCopy(buf: seq<byte>, bytes: seq<byte>)
    requires At(buf, 0, bytes)
    ensures Overwrite(buf, bytes) == buf
  {
  }

  lemma CallAlike(w: World)
    requires Alike(w) && Enabled(w, Call)
    ensures Alike(Step(w, Call))
  {
    hide ReadOffer, Encode;
    StepBalanced(w, Call);
    if w.client.calls > 0 {
      SameCopy(w.client.sendBl, Encode(RequestMessage(FinishRequest)));
    }
  }

  lemma StepAlike(w: World, e: Event)
    requires Alike(w) && Enabled(w, e) && !e.Handle? && !e.Call?
    ensures Alike(Step(w, e))
  {
    hide ReadOffer, Encode, TakeReply;
    StepBalanced(w, e);
  }

  lemma {:induction false} RunAlike(w: World, es: seq<Event>)
    requires Alike(w) && Run(w, es).Some?
    ensures Alike(Run(w, es).value)
    decreases |es|
  {
    hide ReceivesCounted, MessagesCounted, RequestsKnown, RepliesKnown, ReadOffer, Encode, Step;
    if es == [] {
    } else {
      match es[0] {
        case Handle(o) => HandleAlike(w, o);
        case Call => CallAlike(w);
        case _ => StepAlike(w, es[0]);
      }
      RunAlike(Step(w, es[0]), es[1..]);
    }
  }

  /** Two neighbours of different kinds, between two calls of different kinds. */
  lemma {:induction false} Neighbours(plan: seq<Request>, i: nat, j: nat) returns (k: nat)
    requires i < j < |plan| && plan[i].FinishRequest? != plan[j].FinishRequest?
    ensures i <= k < j && plan[k].FinishRequest? == plan[i].FinishRequest? && plan[k + 1].FinishRequest? == plan[j].FinishRequest?
    decreases j - i
  {
    if plan[i + 1].FinishRequest? == plan[j].FinishRequest? {
      k := i;
    } else {
      k := Neighbours(plan, i + 1, j);
    }
  }

  lemma AltersFrom(w: World, i: nat, k: nat)
    requires Initial(w) && i + 1 < |w.plan| && w.plan[i].FinishRequest?
    requires k < |w.plan| && w.plan[k].InitRequest?
    ensures MayAlter(w)
  {
    hide Initial, MayAlter;
    if i < k {
      var m := Neighbours(w.plan, i, k);
      AltersByInit(w, m);
    } else {
      var m := Neighbours(w.plan, k, i);
      if w.plan[m + 2].InitRequest? {
        AltersByInit(w, m + 1);
      } else {
        AltersByFinish(w, m + 1);
      }
    }
  }

  /**
   The bytes of a send that waits can be changed, on either side, if and only if a call follows a
   FINISHED one and not all calls are FINISHED ones.
   */
  lemma AlteredIff(w: World)
    requires Initial(w)
    ensures MayAlter(w) <==> !FinishedLast(w.plan) && !AllFinished(w.plan)
  {
    hide Run, ReadOffer, Encode, Step;
    if FinishedLast(w.plan) {
      forall es | Run(w, es).Some?
        ensures !Run(w, es).value.faults.altered
      {
        CleanRunsAreSafe(w, es);
      }
    } else if AllFinished(w.plan) {
      forall es | Run(w, es).Some?
        ensures !Run(w, es).value.faults.altered
      {
        InitialBalanced(w);
        RunAlike(w, es);
      }
    } else {
      var i :| 0 <= i < |w.plan| - 1 && w.plan[i].FinishRequest?;
      var k :| 0 <= k < |w.plan| && w.plan[k].InitRequest?;
      AltersFrom(w, i, k);
    }
  }
}
