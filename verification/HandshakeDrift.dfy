/**
 How far a client can drift from the server, in numbers.  A tally counts calls, requests handled and
 FINISHED requests among them, and knows the region's size; it has none of the bytes, buffers and
 posted operations of the exchange.  A plan's calls can end in a wrong size or flush type if and only
 if its tallies can.
 */
module HandshakeDrift {
  import opened Bytes
  import opened Wire
  import opened Handshake
  import opened HandshakeSafety
  import opened HandshakeBalance
  import opened HandshakeFit
  import opened HandshakeLag

  /** The reply to the current call: still to come, or here with the size it offers, if any. */
  datatype Reply = Awaited | Here(size: Option<u64>)

  /** `taken` is the call whose request stands at the server. */
  datatype Tally = Tally(call: nat, reply: Reply, taken: Option<nat>, handled: nat, finished: nat, region: Option<u64>)

  const Zero: Tally := Tally(0, Here(None), None, 0, 0, None)

  datatype Move =
    | Next   // the client reads the reply and makes its next call
    | Take   // a request reaches the server: the oldest not taken, in the words of the current call
    | Serve  // it is handled: a FINISHED one earns two replies, an INIT one
    | Get    // a reply reaches the client

  predicate CanMove(plan: seq<Request>, t: Tally, m: Move) {
    && t.call <= |plan|
    && match m
       case Next =>
         t.call < |plan| && t.reply.Here? && (t.call == 0 || plan[t.call - 1].FinishRequest? || t.reply.size.Some?)
       case Take => t.taken.None? && t.handled < t.call
       case Serve => t.taken.Some? && 0 < t.taken.value <= t.call
       case Get => t.reply.Awaited? && t.call <= t.handled + t.finished
  }

  function Moved(plan: seq<Request>, t: Tally, m: Move): Tally
    requires CanMove(plan, t, m)
  {
    match m
    case Next => t.(call := t.call + 1, reply := Awaited)
    case Take => t.(taken := Some(t.call))
    case Serve =>
      var u := t.(taken := None, handled := t.handled + 1);
      (match plan[t.taken.value - 1]
       case FinishRequest => u.(finished := t.finished + 1, region := None)
       case InitRequest(i) => if t.region.Some? then u else u.(region := Some(i.cacheSize)))
    case Get => t.(reply := Here(t.region))
  }

  function Walk(plan: seq<Request>, ms: seq<Move>): Option<Tally> {
    if ms == [] then Some(Zero)
    else
      var t := Walk(plan, ms[..|ms| - 1]);
      if t.Some? && CanMove(plan, t.value, ms[|ms| - 1]) then Some(Moved(plan, t.value, ms[|ms| - 1])) else None
  }

  ghost predicate Reachable(plan: seq<Request>, t: Tally) {
    exists ms :: Walk(plan, ms) == Some(t)
  }

  /** The client has a reply large enough for its INIT call, and the region it offered is gone. */
  predicate Lost(plan: seq<Request>, t: Tally) {
    && 0 < t.call <= |plan| && plan[t.call - 1].InitRequest?
    && t.reply.Here? && t.reply.size.Some? && plan[t.call - 1].info.cacheSize <= t.reply.size.value
    && t.region != t.reply.size
  }

  ghost predicate Drifts(plan: seq<Request>) {
    exists t :: Reachable(plan, t) && Lost(plan, t)
  }

  lemma ZeroReachable(plan: seq<Request>)
    ensures Reachable(plan, Zero)
  {
    assert Walk(plan, []) == Some(Zero);
  }

  lemma Goes(plan: seq<Request>, t: Tally, m: Move)
    requires Reachable(plan, t) && CanMove(plan, t, m)
    ensures Reachable(plan, Moved(plan, t, m))
  {
    var ms :| Walk(plan, ms) == Some(t);
    assert (ms + [m])[..|ms|] == ms;
    assert Walk(plan, ms + [m]) == Some(Moved(plan, t, m));
  }

  // ---------------------------------------------------------------- a check of the plan

  /** The server has handled no more than was asked of it. */
  predicate Sane(plan: seq<Request>, t: Tally) {
    && t.handled + One(t.taken.Some?) <= t.call <= |plan|
    && (t.taken.Some? ==> 0 < t.taken.value <= t.call)
  }

  /** How many moves are left at most. */
  function Left(plan: seq<Request>, t: Tally): int {
    4 * |plan| - 2 * t.call + One(t.reply.Awaited?) - 2 * t.handled + One(t.taken.None?)
  }

  lemma MovesEnd(plan: seq<Request>, t: Tally, m: Move)
    requires Sane(plan, t) && CanMove(plan, t, m)
    ensures Sane(plan, Moved(plan, t, m)) && 0 <= Left(plan, Moved(plan, t, m)) < Left(plan, t)
  {
  }

  /** The check: some moves from here lose a region. */
  predicate CanLose(plan: seq<Request>, t: Tally)
    requires Sane(plan, t)
    decreases Left(plan, t)
  {
    || Lost(plan, t)
    || CanLoseBy(plan, t, Next) || CanLoseBy(plan, t, Take) || CanLoseBy(plan, t, Serve) || CanLoseBy(plan, t, Get)
  }

  predicate CanLoseBy(plan: seq<Request>, t: Tally, m: Move)
    requires Sane(plan, t)
    decreases Left(plan, t), 0
  {
    CanMove(plan, t, m) && (MovesEnd(plan, t, m); CanLose(plan, Moved(plan, t, m)))
  }

  lemma {:induction false} LosesSound(plan: seq<Request>, t: Tally)
    requires Sane(plan, t) && Reachable(plan, t) && CanLose(plan, t)
    ensures Drifts(plan)
    decreases Left(plan, t)
  {
    hide Lost, CanMove, Moved, Reachable;
    if !Lost(plan, t) {
      var m := if CanLoseBy(plan, t, Next) then Next else if CanLoseBy(plan, t, Take) then Take
               else if CanLoseBy(plan, t, Serve) then Serve else Get;
      assert CanLoseBy(plan, t, m);
      MovesEnd(plan, t, m);
      Goes(plan, t, m);
      LosesSound(plan, Moved(plan, t, m));
    }
  }

  lemma {:induction false} LosesComplete(plan: seq<Request>, ms: seq<Move>)
    requires Walk(plan, ms).Some?
    ensures Sane(plan, Walk(plan, ms).value)
    ensures CanLose(plan, Walk(plan, ms).value) ==> CanLose(plan, Zero)
  {
    hide Lost, CanMove, Moved;
    if ms != [] {
      var t, m := Walk(plan, ms[..|ms| - 1]).value, ms[|ms| - 1];
      LosesComplete(plan, ms[..|ms| - 1]);
      MovesEnd(plan, t, m);
      assert CanLose(plan, Moved(plan, t, m)) ==> CanLoseBy(plan, t, m);
      match m
      case Next =>
      case Take =>
      case Serve =>
      case Get =>
    }
  }

  /** A plan's tallies can lose a region exactly when the check finds them to. */
  lemma CheckIsExact(plan: seq<Request>)
    ensures Drifts(plan) <==> CanLose(plan, Zero)
  {
    if Drifts(plan) {
      var t :| Reachable(plan, t) && Lost(plan, t);
      var ms :| Walk(plan, ms) == Some(t);
      LosesComplete(plan, ms);
    }
    if CanLose(plan, Zero) {
      ZeroReachable(plan);
      LosesSound(plan, Zero);
    }
  }

  // ---------------------------------------------------------------- every run has a tally

  function SizeOf(region: Option<Region>): Option<u64> {
    if region.None? then None else Some(region.value.size)
  }

  /** What a waiting or taken reply says, against what the tally says of it. */
  predicate SameReply(w: World, t: Tally)
    requires Formed(w)
  {
    var c := w.client;
    if c.waiting && !c.halted && !c.arrived then t.reply == Awaited
    else
      && t.reply.Here?
      && (c.arrived && !ReadOffer(c.recvBl).Unreadable? ==> t.reply.size.Some?)
      && (c.arrived && ReadOffer(c.recvBl).Offer? ==> t.reply.size.value == ReadOffer(c.recvBl).size)
      && (!c.arrived && !c.halted && c.calls > 0 && w.plan[c.calls - 1].InitRequest? ==> t.reply.size.Some?)
  }

  /** The client waits for the reply to an INIT call. */
  predicate Awaits(w: World)
    requires Formed(w)
  {
    w.client.calls > 0 && w.plan[w.client.calls - 1].InitRequest?
  }

  predicate Tallied(w: World, t: Tally)
    requires Formed(w)
  {
    var c, s := w.client, w.server;
    && t.call == c.calls && t.handled == Dealt(s) && t.finished == s.finished && t.region == SizeOf(s.region)
    && (!s.halted ==> t.taken == if s.arrived then Some(w.origin) else None)
    && SameReply(w, t)
  }

  /** A reply that is neither an offer nor unreadable is the untouched buffer's, and then there is a region. */
  predicate Untouched(w: World) {
    var s := w.server;
    && (ReadOffer(s.sendBl).Refused? ==> s.finished == 0)
    && (s.finished == 0 && Dealt(s) > 0 ==> s.region.Some?)
  }

  /** A waiting offer is of the region the server has, or the plan drifts. */
  ghost predicate Accounted(w: World)
    requires Formed(w)
  {
    && (w.client.arrived && Awaits(w) && Accepts(w.client, ReadOffer(w.client.recvBl)) ==>
          Matches(ReadOffer(w.client.recvBl), w.server.region) || Drifts(w.plan))
    && (w.faults.misfit ==> Drifts(w.plan))
  }

  ghost predicate Simulated(w: World) {
    && Balanced(w) && ImageRule(w) && Untouched(w) && Accounted(w)
    && (w.client.arrived ==> !ReadOffer(w.client.recvBl).NoRegion?)
    && exists t :: Reachable(w.plan, t) && Tallied(w, t)
  }

  lemma InitialSimulated(w: World)
    requires Initial(w)
    ensures Simulated(w)
  {
    hide ReadOffer, Encode, Drifts, Reachable;
    InitialBalanced(w);
    ZeroReachable(w.plan);
    assert Tallied(w, Zero);
  }

  lemma CallSimulated(w: World)
    requires Simulated(w) && Enabled(w, Call)
    ensures Simulated(Step(w, Call))
  {
    hide ReadOffer, Encode, Drifts, Reachable;
    var t :| Reachable(w.plan, t) && Tallied(w, t);
    StepBalanced(w, Call);
    Goes(w.plan, t, Next);
    assert Tallied(Step(w, Call), Moved(w.plan, t, Next));
  }

  lemma ToServerSimulated(w: World)
    requires Simulated(w) && Enabled(w, ToServer)
    ensures Simulated(Step(w, ToServer))
  {
    hide ReadOffer, Encode, Drifts, Reachable;
    var t :| Reachable(w.plan, t) && Tallied(w, t);
    StepBalanced(w, ToServer);
    Goes(w.plan, t, Take);
    assert Tallied(Step(w, ToServer), Moved(w.plan, t, Take));
  }

  lemma ToClientSimulated(w: World)
    requires Simulated(w) && Enabled(w, ToClient)
    ensures Simulated(Step(w, ToClient))
  {
    hide ReadOffer, Encode, Drifts, Reachable;
    var t :| Reachable(w.plan, t) && Tallied(w, t);
    StepBalanced(w, ToClient);
    Goes(w.plan, t, Get);
    assert Tallied(Step(w, ToClient), Moved(w.plan, t, Get));
  }

  lemma ReturnSimulated(w: World)
    requires Simulated(w) && Enabled(w, Return)
    ensures Simulated(Step(w, Return))
  {
    hide ReadOffer, Encode, Drifts, Reachable, TakeReply;
    var t :| Reachable(w.plan, t) && Tallied(w, t);
    StepBalanced(w, Return);
    TakesReply(w.client, w.plan[w.client.calls - 1]);
    HaltsUnread(w.client, w.plan[w.client.calls - 1]);
    ReturnJudges(w);
    assert Tallied(Step(w, Return), t);
  }

  lemma HaltsUnread(c: Client, r: Request)
    ensures r.InitRequest? && ReadOffer(c.recvBl).Unreadable? ==> TakeReply(c, r).halted
  {
    hide ReadOffer, DecodePlain;
  }

  lemma QuietSimulated(w: World, e: Event)
    requires Simulated(w) && Enabled(w, e) && (e.Submit? || e.PostNext? || e.Respond?)
    ensures Simulated(Step(w, e))
  {
    hide ReadOffer, Encode, Drifts, Reachable;
    var t :| Reachable(w.plan, t) && Tallied(w, t);
    StepBalanced(w, e);
    assert Tallied(Step(w, e), t);
  }

  /** What the request leaves in the send buffer. */
  lemma HandleLeaves(w: World, o: Outcome)
    requires Balanced(w) && Enabled(w, Handle(o))
    ensures var t := Step(w, Handle(o)).server;
            ReadOffer(t.sendBl).Refused? ==> t.sendBl == w.server.sendBl && w.plan[w.origin - 1].InitRequest?
  {
    hide ReadOffer, Encode, Begin;
    HandleShape(w, o);
    var s := w.server.(arrived := false);
    Renews(s, o);
    FinishLeaves(w, o);
  }

  lemma FinishLeaves(w: World, o: Outcome)
    requires Balanced(w) && Enabled(w, Handle(o)) && 0 < w.origin <= |w.plan|
    ensures w.plan[w.origin - 1].FinishRequest? ==> ReadOffer(Step(w, Handle(o)).server.sendBl).Unreadable?
  {
    hide ReadOffer, Encode, DecodePlain, DecodeInit, Setup;
    if w.plan[w.origin - 1].FinishRequest? {
      assert w.plan[w.origin - 1] in w.plan;
      ReadsRequest(FinishRequest, w.server.recvBl);
      Closes(w.server.(arrived := false), o);
    }
  }

  lemma HandleTallied(w: World, o: Outcome, t: Tally)
    requires Balanced(w) && Enabled(w, Handle(o)) && Tallied(w, t)
    ensures var v := Step(w, Handle(o));
            if v.server.halted then Tallied(v, t) && v.server.region == w.server.region
            else CanMove(w.plan, t, Serve) && Tallied(v, Moved(w.plan, t, Serve))
  {
    hide ReadOffer, Encode, Begin;
    HandleShape(w, o);
  }

  lemma HandleSimulated(w: World, o: Outcome)
    requires Simulated(w) && Enabled(w, Handle(o))
    ensures Simulated(Step(w, Handle(o)))
  {
    hide ReadOffer, Encode, Drifts, Reachable, Begin, Tallied;
    var t :| Reachable(w.plan, t) && Tallied(w, t);
    StepBalanced(w, Handle(o));
    HandleShape(w, o);
    HandleLeaves(w, o);
    HandleTallied(w, o, t);
    var v := Step(w, Handle(o));
    if !v.server.halted {
      Goes(w.plan, t, Serve);
      if w.client.arrived && Awaits(w) && Accepts(w.client, ReadOffer(w.client.recvBl)) && w.plan[w.origin - 1].FinishRequest? {
        LostFound(w, v, Moved(w.plan, t, Serve));
      }
    }
  }

  /** The region is given up while a reply about one waits. */
  lemma LostFound(w: World, v: World, u: Tally)
    requires Formed(w) && Formed(v) && v.plan == w.plan && v.client == w.client && v.server.region.None?
    requires ImageRule(w) && Tallied(v, u) && Reachable(w.plan, u) && !ReadOffer(w.client.recvBl).NoRegion?
    requires w.client.arrived && Awaits(w) && Accepts(w.client, ReadOffer(w.client.recvBl))
    ensures Drifts(w.plan)
  {
    hide ReadOffer, Encode, Reachable;
    assert Lost(w.plan, u);
  }

  lemma {:induction false} RunSimulated(w: World, es: seq<Event>)
    requires Simulated(w) && Run(w, es).Some?
    ensures Simulated(Run(w, es).value)
    decreases |es|
  {
    hide ReceivesCounted, MessagesCounted, RequestsKnown, RepliesKnown, ReadOffer, Step, Untouched, Accounted, Tallied, Reachable, ImageRule;
    if es == [] {
    } else {
      match es[0] {
        case Call => CallSimulated(w);
        case ToServer => ToServerSimulated(w);
        case Handle(o) => HandleSimulated(w, o);
        case ToClient => ToClientSimulated(w);
        case Return => ReturnSimulated(w);
        case _ => QuietSimulated(w, es[0]);
      }
      RunSimulated(Step(w, es[0]), es[1..]);
    }
  }

  // ---------------------------------------------------------------- every tally has a run

  /** No callback is running and nothing failed; the server's buffer says what the tally says. */
  predicate PacedServer(w: World, t: Tally)
    requires Formed(w)
  {
    var s := w.server;
    && !s.halted && s.task == Resting && t.handled == s.handled && t.finished == s.finished
    && t.taken == (if s.arrived then Some(w.origin) else None)
    && (s.handled > 0 ==> DecodePlain(s.sendBl, 0).Ok?)
    && (if t.region.None? then s.region.None? else Offers(s, Region(t.region.value, true)))
  }

  /** The reply to the current call is still to come, or stands in the client's buffer unread. */
  predicate PacedClient(w: World, t: Tally)
    requires Formed(w)
  {
    var c := w.client;
    && !c.halted && !c.asking && t.call == c.calls && ImageRule(w)
    && if t.reply.Awaited? then c.waiting && !c.arrived
       else
         && c.arrived == c.waiting == (c.calls > 0)
         && (c.arrived ==> DecodePlain(c.recvBl, 0).Ok?)
         && (t.reply.size.Some? ==> ReadOffer(c.recvBl).Offer? && ReadOffer(c.recvBl).size == t.reply.size.value)
  }

  predicate Paced(w: World, t: Tally) {
    Balanced(w) && PacedServer(w, t) && PacedClient(w, t)
  }

  lemma ReadPaced(w: World, t: Tally)
    requires Paced(w, t) && CanMove(w.plan, t, Next) && t.call > 0
    ensures Enabled(w, Return) && Balanced(Step(w, Return))
    ensures var v := Step(w, Return);
            && v.plan == w.plan && v.server == w.server && v.origin == w.origin && v.client.calls == w.client.calls
            && !v.client.halted && !v.client.asking && !v.client.waiting && !v.client.arrived
  {
    hide ReadOffer, Encode, DecodePlain, TakeReply;
    StepBalanced(w, Return);
    SpareTaken(w);
  }

  const NextCall: seq<Event> := [Call] + ([Submit] + [])

  lemma CallPaced(w: World, t: Tally)
    requires Balanced(w) && PacedServer(w, t) && t.call == w.client.calls < |w.plan|
    requires !w.client.halted && !w.client.asking && !w.client.waiting
    ensures Run(w, NextCall).Some? && Run(w, NextCall).value.plan == w.plan
    ensures Paced(Run(w, NextCall).value, t.(call := t.call + 1, reply := Awaited))
  {
    hide ReadOffer, Encode, DecodePlain;
    var a := Step(w, Call);
    StepBalanced(w, Call);
    StepBalanced(a, Submit);
    RunCons(w, Call, [Submit] + []);
    RunCons(a, Submit, []);
  }

  lemma NextPaced(w: World, t: Tally) returns (es: seq<Event>)
    requires Paced(w, t) && CanMove(w.plan, t, Next)
    ensures Run(w, es).Some? && Run(w, es).value.plan == w.plan && Paced(Run(w, es).value, Moved(w.plan, t, Next))
  {
    hide ReadOffer, Encode, DecodePlain, Step, NextCall;
    if t.call == 0 {
      CallPaced(w, t);
      es := NextCall;
    } else {
      ReadPaced(w, t);
      CallPaced(Step(w, Return), t);
      RunCons(w, Return, NextCall);
      es := [Return] + NextCall;
    }
  }

  lemma TakePaced(w: World, t: Tally)
    requires Paced(w, t) && CanMove(w.plan, t, Take)
    ensures Enabled(w, ToServer) && Paced(Step(w, ToServer), Moved(w.plan, t, Take))
  {
    hide ReadOffer, Encode, DecodePlain;
    StepBalanced(w, ToServer);
  }

  lemma GetPaced(w: World, t: Tally)
    requires Paced(w, t) && CanMove(w.plan, t, Get)
    ensures Enabled(w, ToClient) && Paced(Step(w, ToClient), Moved(w.plan, t, Get))
  {
    hide ReadOffer, Encode, DecodePlain;
    StepBalanced(w, ToClient);
  }

  const Callback: seq<Event> := [Handle(Well([]))] + ([PostNext] + ([Respond] + []))

  /** The request has had its effect, and the callback has still to end. */
  predicate Serving(w: World, t: Tally) {
    && Balanced(w) && PacedClient(w, t)
    && var s := w.server;
       && !s.halted && s.task == MustReceive && t.handled == s.handled + 1 && t.finished == s.finished
       && t.taken.None? && !s.arrived && DecodePlain(s.sendBl, 0).Ok?
       && (if t.region.None? then s.region.None? else Offers(s, Region(t.region.value, true)))
  }

  lemma EffectPaced(w: World, t: Tally)
    requires Paced(w, t) && CanMove(w.plan, t, Serve)
    ensures Enabled(w, Handle(Well([]))) && Serving(Step(w, Handle(Well([]))), Moved(w.plan, t, Serve))
  {
    hide ReadOffer, Encode, DecodePlain, Begin, Step, ReceivesCounted, MessagesCounted;
    assert w.plan[w.origin - 1] in w.plan;
    HandleBegins(w, Well([]));
    HandleShape(w, Well([]));
    Handles(w.server.(arrived := false), w.plan[w.origin - 1], []);
    StepBalanced(w, Handle(Well([])));
  }

  lemma EndPaced(w: World, t: Tally)
    requires Serving(w, t)
    ensures Enabled(w, PostNext) && Enabled(Step(w, PostNext), Respond)
    ensures Paced(Step(Step(w, PostNext), Respond), t)
  {
    hide ReadOffer, Encode, DecodePlain, ReceivesCounted, MessagesCounted, RequestsKnown;
    StepBalanced(w, PostNext);
    StepBalanced(Step(w, PostNext), Respond);
  }

  lemma ServePaced(w: World, t: Tally)
    requires Paced(w, t) && CanMove(w.plan, t, Serve)
    ensures Run(w, Callback).Some? && Run(w, Callback).value.plan == w.plan
    ensures Paced(Run(w, Callback).value, Moved(w.plan, t, Serve))
  {
    hide ReadOffer, Encode, Step, CanMove, Moved, Serving, PacedServer, PacedClient;
    EffectPaced(w, t);
    var a := Step(w, Handle(Well([])));
    EndPaced(a, Moved(w.plan, t, Serve));
    var b := Step(a, PostNext);
    RunCons(w, Handle(Well([])), [PostNext] + ([Respond] + []));
    RunCons(a, PostNext, [Respond] + []);
    RunCons(b, Respond, []);
  }

  lemma MovePaced(w: World, t: Tally, m: Move) returns (es: seq<Event>)
    requires Paced(w, t) && CanMove(w.plan, t, m)
    ensures Run(w, es).Some? && Run(w, es).value.plan == w.plan && Paced(Run(w, es).value, Moved(w.plan, t, m))
  {
    hide Paced, Step, Callback, CanMove, Moved;
    assert Formed(w) by {
      PacedFormed(w, t);
    }
    match m
    case Next =>
      es := NextPaced(w, t);
    case Take =>
      TakePaced(w, t);
      RunCons(w, ToServer, []);
      es := [ToServer] + [];
    case Serve =>
      ServePaced(w, t);
      es := Callback;
    case Get =>
      GetPaced(w, t);
      RunCons(w, ToClient, []);
      es := [ToClient] + [];
  }

  lemma PacedFormed(w: World, t: Tally)
    requires Paced(w, t)
    ensures Formed(w)
  {
  }

  lemma {:induction false} WalkPaced(w: World, ms: seq<Move>) returns (es: seq<Event>)
    requires Initial(w) && Walk(w.plan, ms).Some?
    ensures Run(w, es).Some? && Run(w, es).value.plan == w.plan && Paced(Run(w, es).value, Walk(w.plan, ms).value)
  {
    hide Paced, Step, CanMove, Moved, ReadOffer, Encode;
    if ms == [] {
      es := [];
      ZeroPaced(w);
    } else {
      var before := WalkPaced(w, ms[..|ms| - 1]);
      var more := MovePaced(Run(w, before).value, Walk(w.plan, ms[..|ms| - 1]).value, ms[|ms| - 1]);
      RunConcat(w, before, more);
      es := before + more;
    }
  }

  lemma ZeroPaced(w: World)
    requires Initial(w)
    ensures Paced(w, Zero)
  {
    hide ReadOffer, Encode;
    InitialBalanced(w);
  }

  lemma LostMisfits(w: World, t: Tally)
    requires Paced(w, t) && Lost(w.plan, t)
    ensures Enabled(w, Return) && Step(w, Return).faults.misfit
  {
    hide ReadOffer, Encode, DecodePlain, TakeReply;
    ReturnJudges(w);
  }

  // ---------------------------------------------------------------- main result

  ghost predicate MayMisfit(w: World)
    requires Formed(w)
  {
    exists es :: Run(w, es).Some? && Run(w, es).value.faults.misfit
  }

  /**
   A client can take a size or flush type that is not the region's, in some order of events and outcomes
   of the foreign calls, if and only if its plan's tallies can lose a region; a check of the plan says so.
   */
  lemma MisfitIffDrifts(w: World)
    requires Initial(w)
    ensures MayMisfit(w) <==> Drifts(w.plan)
    ensures MayMisfit(w) <==> CanLose(w.plan, Zero)
  {
    hide ReadOffer, Encode, Step;
    CheckIsExact(w.plan);
    if MayMisfit(w) {
      var es :| Run(w, es).Some? && Run(w, es).value.faults.misfit;
      InitialSimulated(w);
      RunSimulated(w, es);
    }
    if Drifts(w.plan) {
      DriftRuns(w);
    }
  }

  lemma DriftRuns(w: World)
    requires Initial(w) && Drifts(w.plan)
    ensures MayMisfit(w)
  {
    hide ReadOffer, Encode, Step, Lost, Paced;
    var t :| Reachable(w.plan, t) && Lost(w.plan, t);
    var ms :| Walk(w.plan, ms) == Some(t);
    var es := WalkPaced(w, ms);
    LostMisfits(Run(w, es).value, t);
    RunConcat(w, es, [Return] + []);
    RunCons(Run(w, es).value, Return, []);
    assert Run(w, es + ([Return] + [])).Some?;
  }

  /**
   In every run of any other plan, across any INIT and FINISHED calls: after every reply it takes the
   client's flush type is the one the server's region is registered for, and its size is the region's.
   */
  lemma FlushTypeAgrees(w: World, es: seq<Event>)
    requires Initial(w) && Run(w, es).Some? && TakesFlushType(Run(w, es).value) && !CanLose(w.plan, Zero)
    ensures var t := Run(w, es).value;
            var after := Step(t, Return).client;
            && t.server.region.Some? && after.image.Some? && after.flush.Some?
            && after.image.value.size == t.server.region.value.size
            && (forall f: FlushType :: Allows(Usage(t.server.region.value), f) <==> after.flush.value == f)
            && (after.flush.value == Persistent <==> after.directWrite)
  {
    hide ReadOffer, Encode, Drifts, CanLose, Step, Tallied, Reachable;
    var t := Run(w, es).value;
    CheckIsExact(w.plan);
    InitialSimulated(w);
    RunSimulated(w, es);
    UsageAllowsOne(t.server.region.value);
    TakenAsRead(t);
  }
}
