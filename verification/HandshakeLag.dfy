/**
 A client that goes on after FINISHED calls: each of them leaves one more reply that no receive waits
 for, and any plan can still be carried out call by call.
 */
module HandshakeLag {
  import opened Bytes
  import opened Wire
  import opened Handshake
  import opened HandshakeSafety
  import opened HandshakeFit

  // ---------------------------------------------------------------- runs

  lemma {:induction false} RunConcat(w: World, a: seq<Event>, b: seq<Event>)
    requires Formed(w) && Run(w, a).Some?
    ensures Run(w, a + b) == Run(Run(w, a).value, b)
    decreases |a|
  {
    hide Step;
    if a == [] {
      assert a + b == b;
    } else {
      assert (a + b)[1..] == a[1..] + b;
      RunConcat(Step(w, a[0]), a[1..], b);
    }
  }

  lemma RunCons(w: World, e: Event, es: seq<Event>)
    requires Formed(w) && Enabled(w, e)
    ensures Run(w, [e] + es) == Run(Step(w, e), es)
  {
  }

  /** A call from its start to its return, with this outcome at the server. */
  function Completed(o: Outcome): seq<Event> {
    [Call] + ([Submit] + ([ToServer] + ([Handle(o)] + ([PostNext] + ([Respond] + ([ToClient] + ([Return] + [])))))))
  }

  /** All foreign calls succeed, and a registration gets this key. */
  function Well(key: Key): Outcome {
    Outcome(Some(true), true, true, true, key)
  }

  // ---------------------------------------------------------------- an exchange

  /** Between two calls, with `n` replies posted that no receive waits for. */
  predicate Lagging(w: World, n: nat) {
    var s := w.server;
    && Formed(w) && ClientIdle(w.client)
    && !s.halted && s.task == Resting && s.credits == 1 && !s.arrived && |s.pending| == n
  }

  /** The world once the next call was made and its request stands in the server's buffer. */
  lemma Delivered(w: World, n: nat)
    requires Lagging(w, n) && w.client.calls < |w.plan|
    ensures Enabled(w, Call) && Enabled(Step(w, Call), Submit) && Enabled(Step(Step(w, Call), Submit), ToServer)
    ensures var r := w.plan[w.client.calls];
            var t := Step(Step(Step(w, Call), Submit), ToServer);
            && t.client == Prepare(w.client, r).(asking := false, pending := [])
            && t.server == w.server.(recvBl := t.client.sendBl, credits := 0, arrived := true)
            && At(t.server.recvBl, 0, Encode(RequestMessage(r)))
  {
    hide Encode, ReadOffer;
  }

  /** The server has this region and its buffer offers it, under its registration. */
  predicate Offers(s: Server, r: Region) {
    && s.region == Some(r)
    && ReadOffer(s.sendBl).Offer? && ReadOffer(s.sendBl).size == r.size && s.mr == Some(ReadOffer(s.sendBl).key)
  }

  /** When all goes well the server handles whatever it reads, and its buffer can be read by anyone waiting. */
  lemma Handles(s: Server, r: Request, key: Key)
    requires |s.sendBl| == MSG_SIZE && |key| <= 4057 && !s.halted
    requires Sendable(r) && At(s.recvBl, 0, Encode(RequestMessage(r)))
    ensures CopiesReply(s, Well(key))
    ensures var t := Begin(s, Well(key));
            && !t.halted && t.credits == s.credits && t.arrived == s.arrived && t.task == MustReceive
            && t.keys == s.keys + (if r.InitRequest? then [key] else [])
            && |t.pending| == |s.pending| + (if r.FinishRequest? then 1 else 0)
            && DecodePlain(t.sendBl, 0).Ok?
            && (r.FinishRequest? ==> t.region.None?)
            && (r.InitRequest? ==> Offers(t, if s.region.Some? then s.region.value else Region(r.info.cacheSize, true)))
  {
    hide ReadOffer, Encode, DecodePlain, DecodeInit;
    ReadsRequest(r, s.recvBl);
    match r
    case FinishRequest =>
      FrameSizes(FinishedReply(s, Well(key)));
      Peek(FinishedReply(s, Well(key)), Close(s, Well(key)).sendBl, 0);
    case InitRequest(i) =>
      var region := if s.region.Some? then s.region.value else Region(i.cacheSize, true);
      ReplyFits(region, key);
      ReadsReply(region, key, Overwrite(s.sendBl, Encode(InitReply(region, key))));
      OfferIsPlain(Overwrite(s.sendBl, Encode(InitReply(region, key))));
  }

  /** Whatever reads as an INIT reply also reads as a message of the base class. */
  lemma OfferIsPlain(buf: seq<byte>)
    requires ReadOffer(buf).Offer?
    ensures DecodePlain(buf, 0).Ok?
  {
    hide DecodePlain, DecodeReply;
    ReadersAgree(buf, 0);
  }

  /** The server's handler with the next request in its buffer. */
  function Holding(w: World): Server
    requires Formed(w) && w.client.calls < |w.plan|
  {
    w.server.(recvBl := Prepare(w.client, w.plan[w.client.calls]).sendBl, credits := 0, arrived := false)
  }

  /** The server goes on after the request, and the client that waits can read its buffer. */
  predicate Answerable(w: World, o: Outcome)
    requires Formed(w) && w.client.calls < |w.plan| && |o.key| <= 4057
  {
    var r := w.plan[w.client.calls];
    var t := Begin(Holding(w), o);
    && !t.halted && t.credits == 0 && !t.arrived && t.task == MustReceive
    && |t.pending| == |w.server.pending| + (if r.FinishRequest? then 1 else 0)
    && DecodePlain(t.sendBl, 0).Ok? && (r.InitRequest? ==> ReadOffer(t.sendBl).Offer?)
  }

  /** A whole exchange while lagging, with such an outcome: a FINISHED one adds to the lag. */
  lemma ExchangeWith(w: World, n: nat, o: Outcome)
    requires Lagging(w, n) && w.client.calls < |w.plan| && |o.key| <= 4057 && Answerable(w, o)
    ensures Run(w, Completed(o)).Some?
    ensures var t := Run(w, Completed(o)).value;
            && Lagging(t, if w.plan[w.client.calls].FinishRequest? then n + 1 else n)
            && t.plan == w.plan && t.client.calls == w.client.calls + 1
            && t.server.sendBl == Begin(Holding(w), o).sendBl && t.server.region == Begin(Holding(w), o).region
            && t.server.mr == Begin(Holding(w), o).mr && t.server.keys == Begin(Holding(w), o).keys
  {
    hide ReadOffer, Encode, DecodePlain, Begin, Step, Prepare;
    assert w.plan[w.client.calls] in w.plan;
    Delivered(w, n);
    var a := Step(w, Call);
    var b := Step(a, Submit);
    var c := Step(b, ToServer);
    assert c.server.(arrived := false) == Holding(w);
    var d := Step(c, Handle(o));
    PreparedShape(w.client, w.plan[w.client.calls]);
    LagReturns(c, d, n, o);
    var e := Step(d, PostNext);
    var f := Step(e, Respond);
    var g := Step(f, ToClient);
    var t8 := [Return] + [];
    var t7 := [ToClient] + t8;
    var t6 := [Respond] + t7;
    var t5 := [PostNext] + t6;
    var t4 := [Handle(o)] + t5;
    var t3 := [ToServer] + t4;
    RunCons(w, Call, [Submit] + t3);
    RunCons(a, Submit, t3);
    RunCons(b, ToServer, t4);
    RunCons(c, Handle(o), t5);
    RunCons(d, PostNext, t6);
    RunCons(e, Respond, t7);
    RunCons(f, ToClient, t8);
    RunCons(g, Return, []);
  }

  lemma PreparedShape(c: Client, r: Request)
    requires |c.sendBl| == MSG_SIZE && Sendable(r)
    ensures var t := Prepare(c, r);
            t.calls == c.calls + 1 && t.waiting && t.credits == c.credits + 1
            && t.arrived == c.arrived && t.halted == c.halted && t.pending == c.pending
  {
    hide Encode;
  }

  lemma SpareDelivered(w: World)
    requires Formed(w) && w.server.pending != [] && w.client.credits > 0
    ensures Enabled(w, ToClient)
    ensures var t := Step(w, ToClient);
            && t.plan == w.plan && t.server == w.server.(pending := w.server.pending[1..])
            && t.client == w.client.(recvBl := w.server.sendBl, credits := w.client.credits - 1, arrived := true)
  {
    hide ReadOffer, Encode;
  }

  /** The reply is read without harm. */
  lemma SpareTaken(w: World)
    requires Formed(w) && Enabled(w, Return) && !w.client.asking && w.client.credits == 0
    requires DecodePlain(w.client.recvBl, 0).Ok?
    requires w.plan[w.client.calls - 1].InitRequest? ==> ReadOffer(w.client.recvBl).Offer?
    ensures var t := Step(w, Return);
            && t.plan == w.plan && t.server == w.server && t.client.calls == w.client.calls
            && !t.client.halted && !t.client.asking && !t.client.waiting && t.client.credits == 0 && !t.client.arrived
            && t.client.pending == w.client.pending
  {
    hide ReadOffer, DecodePlain;
  }

  lemma LagReturns(c: World, d: World, n: nat, o: Outcome)
    requires Formed(c) && Enabled(c, Handle(o)) && d == Step(c, Handle(o))
    requires ClientWaits(c.client) && !c.client.asking && c.client.pending == []
    requires c.server.credits == 0 && |c.server.pending| == n
    requires var r := c.plan[c.client.calls - 1];
             var t := Begin(c.server.(arrived := false), o);
             && !t.halted && t.credits == 0 && !t.arrived && t.task == MustReceive
             && |t.pending| == n + (if r.FinishRequest? then 1 else 0)
             && DecodePlain(t.sendBl, 0).Ok? && (r.InitRequest? ==> ReadOffer(t.sendBl).Offer?)
    ensures Enabled(d, PostNext)
    ensures var e := Step(d, PostNext);
            && Enabled(e, Respond)
            && var f := Step(e, Respond);
               && Enabled(f, ToClient)
               && var g := Step(f, ToClient);
                  && Enabled(g, Return)
                  && var r := c.plan[c.client.calls - 1];
                     var t := Step(g, Return);
                     && Lagging(t, if r.FinishRequest? then n + 1 else n)
                     && t.client.calls == c.client.calls
                     && t.server.sendBl == Begin(c.server.(arrived := false), o).sendBl
                     && t.server.region == Begin(c.server.(arrived := false), o).region
                     && t.server.mr == Begin(c.server.(arrived := false), o).mr
                     && t.server.keys == Begin(c.server.(arrived := false), o).keys
  {
    hide ReadOffer, Encode, DecodePlain, Begin, Step;
    HandleBegins(c, o);
    CallbackEnds(d);
    var f := Step(Step(d, PostNext), Respond);
    SpareDelivered(f);
    SpareTaken(Step(f, ToClient));
  }

  lemma HandleBegins(w: World, o: Outcome)
    requires Formed(w) && Enabled(w, Handle(o))
    ensures var t := Step(w, Handle(o));
            t.plan == w.plan && t.client == w.client && t.server == Begin(w.server.(arrived := false), o)
  {
    hide ReadOffer, Encode, Begin;
  }

  /** The last two steps of the server's callback. */
  lemma CallbackEnds(w: World)
    requires Formed(w) && !w.server.halted && w.server.task == MustReceive
    ensures Enabled(w, PostNext) && Enabled(Step(w, PostNext), Respond)
    ensures var t := Step(Step(w, PostNext), Respond);
            && t.plan == w.plan && t.client == w.client && t.server == Answer(Repost(w.server))
  {
    hide ReadOffer, Encode;
  }

  /** A whole exchange in which all goes well. */
  lemma LagExchange(w: World, n: nat, key: Key)
    requires Lagging(w, n) && w.client.calls < |w.plan| && |key| <= 4057
    ensures Run(w, Completed(Well(key))).Some?
    ensures var r := w.plan[w.client.calls];
            var t := Run(w, Completed(Well(key))).value;
            && t.server.keys == w.server.keys + (if r.InitRequest? then [key] else [])
            && Lagging(t, if r.FinishRequest? then n + 1 else n)
            && t.plan == w.plan && t.client.calls == w.client.calls + 1
            && DecodePlain(t.server.sendBl, 0).Ok?
            && (r.FinishRequest? ==> t.server.region.None?)
            && (r.InitRequest? ==>
                  Offers(t.server, if w.server.region.Some? then w.server.region.value
                                   else Region(r.info.cacheSize, true)))
  {
    hide ReadOffer, Encode, DecodePlain, Begin, Run, Completed;
    assert w.plan[w.client.calls] in w.plan;
    Handles(Holding(w), w.plan[w.client.calls], key);
    ExchangeWith(w, n, Well(key));
  }

  // ---------------------------------------------------------------- one exchange after the other

  /** The FINISHED calls among the first `n`. */
  function Finishes(plan: seq<Request>, n: nat): nat
    requires n <= |plan|
  {
    if n == 0 then 0 else Finishes(plan, n - 1) + if plan[n - 1].FinishRequest? then 1 else 0
  }

  /** The first of the INIT calls that end with call `n`. */
  function Opener(plan: seq<Request>, n: nat): (k: nat)
    requires 0 < n <= |plan| && plan[n - 1].InitRequest?
    ensures k < n && plan[k].InitRequest?
  {
    if n > 1 && plan[n - 2].InitRequest? then Opener(plan, n - 1) else n - 1
  }

  /** No two registrations have the same key. */
  predicate Distinct(keys: seq<Key>) {
    forall i, j | 0 <= i < j < |keys| :: keys[i] != keys[j]
  }

  /** Registrations are told apart by the number of the call they were made for. */
  predicate Numbered(keys: seq<Key>, n: nat) {
    Distinct(keys) && forall k <- keys :: FromLE(k) < n
  }

  lemma NextNumber(keys: seq<Key>, n: nat)
    requires Numbered(keys, n) && n < TWO64
    ensures Numbered(keys, n + 1) && Numbered(keys + [ToLE(n, 8)], n + 1)
  {
    U64RoundTrip(n);
    var more := keys + [ToLE(n, 8)];
    forall i, j | 0 <= i < j < |more|
      ensures more[i] != more[j]
    {
      assert more[i] in keys;
    }
  }

  const TWO64 := 0x1_0000_0000_0000_0000

  /** The first `n` calls were made, handled and answered one after the other. */
  predicate Synced(w: World, n: nat) {
    && n <= |w.plan| && Lagging(w, Finishes(w.plan, n)) && w.client.calls == n
    && (n > 0 ==> DecodePlain(w.server.sendBl, 0).Ok?)
    && (n <= TWO64 ==> Numbered(w.server.keys, n))
    && if n == 0 || w.plan[n - 1].FinishRequest? then w.server.region.None?
       else Offers(w.server, Region(w.plan[Opener(w.plan, n)].info.cacheSize, true))
  }

  /** Any plan can be carried out so far. */
  lemma {:induction false} Sync(w: World, n: nat) returns (es: seq<Event>)
    requires Initial(w) && n <= |w.plan|
    ensures Run(w, es).Some? && Synced(Run(w, es).value, n)
  {
    hide ReadOffer, Encode, DecodePlain, Step, Completed;
    if n == 0 {
      es := [];
    } else {
      var before := Sync(w, n - 1);
      var key := ToLE(n - 1, 8);
      LagExchange(Run(w, before).value, Finishes(w.plan, n - 1), key);
      if n <= TWO64 {
        NextNumber(Run(w, before).value.server.keys, n - 1);
      }
      RunConcat(w, before, Completed(Well(key)));
      es := before + Completed(Well(key));
    }
  }
}
