/**
 Handlers, the reactor that dispatches to them, and the operations each of them has under way.  A
 callback captures its handler as a raw pointer and runs inside the handler's completion, which the
 reactor reaches through a table node.
 */
module Lifetimes {
  import opened Bytes
  import R = Reactor
  import O = Operations

  type HandlerId = R.HandlerId

  /** Each connection handler has an engine of its own; `fault` marks a completion taken by a handler that is gone. */
  datatype World = World(loop: R.State, engines: map<HandlerId, O.State>, fault: bool)

  const Start: World := World(R.Start, map[], false)

  datatype Event =
    | Loop(r: R.Event, first: Option<O.Addr>) // with the address of a new server handler's first receive
    | Completion(fd: R.Fd, o: O.Event)        // a wake-up on a completion descriptor
    | Use(h: HandlerId, o: O.Event)           // the main program posts through the pointer it holds

  /** A server's handler has a receive posted before it is registered; a client's has nothing. */
  function Begun(first: Option<O.Addr>): O.State {
    if first.None? then O.Start else O.PostOne(O.Start, O.Call(first.value, true, true))
  }

  /** Handlers that have gone take their engines with them; new ones bring theirs. */
  function Engines(w: World, loop: R.State, first: Option<O.Addr>): map<HandlerId, O.State> {
    map h <- loop.alive | h in w.engines || loop.alive[h].Peer? :: if h in w.engines then w.engines[h] else Begun(first)
  }

  /** The kernel's pointer is followed to the node, and the node's to the handler, whose callback runs. */
  function Dispatch(w: World, fd: R.Fd, e: O.Event): World {
    if fd !in w.loop.epoll then w
    else if fd !in w.loop.table || w.loop.table[fd].id != w.loop.epoll[fd] then w.(fault := true)
    else
      var h := w.loop.table[fd].handler;
      if w.loop.table[fd].ty != R.Completion then w
      else if h !in w.loop.alive || h !in w.engines then w.(fault := true)
      else w.(engines := w.engines[h := O.Step(w.engines[h], e)])
  }

  function Step(w: World, e: Event): World {
    match e
    case Loop(r, first) =>
      var loop := R.Step(w.loop, r);
      World(loop, Engines(w, loop, first), w.fault)
    case Completion(fd, o) => Dispatch(w, fd, o)
    case Use(h, o) =>
      if h !in w.loop.alive || h !in w.engines then w.(fault := true)
      else w.(engines := w.engines[h := O.Step(w.engines[h], o)])
  }

  function Run(es: seq<Event>): World {
    if es == [] then Start else Step(Run(es[..|es| - 1]), es[|es| - 1])
  }

  /** A fault is what it is meant to be: a completion that leads to a handler that is gone raises it. */
  lemma DeadCompletionFaults(w: World, fd: R.Fd, o: O.Event)
    requires fd in w.loop.epoll
    requires fd in w.loop.table && w.loop.table[fd].id == w.loop.epoll[fd] ==>
               w.loop.table[fd].ty == R.Completion && w.loop.table[fd].handler !in w.loop.alive
    ensures Step(w, Completion(fd, o)).fault
    ensures forall h: HandlerId :: h !in w.loop.alive ==> Step(w, Use(h, o)).fault
    ensures w.fault ==> forall r: R.Event, first: Option<O.Addr> :: Step(w, Loop(r, first)).fault
  {
  }

  // ---------------------------------------------------------------- the environment's side

  /** What the reactor's thread sees of an engine: a completion, perhaps ahead of its operation's insert. */
  predicate CompletionAllowed(s: O.State, e: O.Event) {
    (e.Success? || e.Failure? || e.NullContext?) && O.Allowed(s, e)
  }

  /** The main program uses a handler it holds, and lets it go only when its posts have returned. */
  predicate Allowed(w: World, e: Event) {
    match e
    case Loop(r, _) =>
      && R.Allowed(w.loop, r)
      && (r.LetGo? && r.h in w.engines ==> w.engines[r.h].owed == {})
    case Completion(fd, o) =>
      fd in w.loop.epoll
      && forall h <- w.engines :: fd in w.loop.table && w.loop.table[fd].handler == h ==> CompletionAllowed(w.engines[h], o)
    case Use(h, o) =>
      && R.Pointer(R.Main, h) in w.loop.held && h in w.loop.alive && w.loop.alive[h].Peer?
      && (o.Post? || o.Submit? || o.Insert?)
      && (h in w.engines ==> O.Allowed(w.engines[h], o))
  }

  predicate AllowedAlong(es: seq<Event>) {
    es != [] ==> AllowedAlong(es[..|es| - 1]) && Allowed(Run(es[..|es| - 1]), es[|es| - 1])
  }

  // ---------------------------------------------------------------- what every step keeps

  predicate Kept(w: World) {
    && !w.fault && R.Kept(w.loop, {}) && R.Quiet(w.loop)
    && (forall h <- w.engines :: h in w.loop.alive && w.loop.alive[h].Peer?)
    && (forall h <- w.loop.alive :: w.loop.alive[h].Peer? ==> h in w.engines)
    && (forall h <- w.engines :: O.Owned(w.engines[h], {}))
    && (forall h <- w.engines :: w.engines[h].owed != {} ==> R.Pointer(R.Main, h) in w.loop.held)
  }

  lemma BegunInOrder(first: Option<O.Addr>)
    ensures O.Owned(Begun(first), {}) && O.Tight(Begun(first), {}) && Begun(first).owed == {}
  {
    if first.Some? {
      O.PostKeeps(O.Start, {}, O.Call(first.value, true, true));
    }
  }

  /** A pointer the main program holds stays until it is let go. */
  lemma MainStays(s: R.State, e: R.Event, h: HandlerId)
    requires R.Kept(s, {}) && R.Quiet(s) && R.Allowed(s, e) && R.Pointer(R.Main, h) in s.held && e != R.LetGo(h)
    ensures R.Pointer(R.Main, h) in R.Step(s, e).held
  {
    hide R.Kept;
    match e
    case Wake(fd, act) => R.DispatchKeeps(s, fd, act);
    case OpenAcceptor(g, fd, a) =>
      R.CreateKeeps(s, R.Main, g, R.Acceptor(fd));
      var c := R.Create(s, R.Main, g, R.Acceptor(fd));
      R.Weaken(c, g);
      R.RegisterKeeps(c, g, R.Accept, a);
    case OpenPeer(g, conn, comp, a, b) =>
      R.CreateKeeps(s, R.Main, g, R.Peer(conn, comp));
      R.RegisterSelfKeeps(R.Create(s, R.Main, g, R.Peer(conn, comp)), g, a, b);
    case LetGo(g) =>
  }

  lemma LoopKeeps(w: World, r: R.Event, first: Option<O.Addr>)
    requires Kept(w) && Allowed(w, Loop(r, first))
    ensures Kept(Step(w, Loop(r, first)))
  {
    hide R.Kept, R.Quiet, R.Step, O.Owned;
    var t := Step(w, Loop(r, first));
    R.StepKeeps(w.loop, r);
    forall h <- t.engines
      ensures t.loop.alive[h].Peer? && O.Owned(t.engines[h], {})
      ensures t.engines[h].owed != {} ==> R.Pointer(R.Main, h) in t.loop.held
    {
      BegunInOrder(first);
      if h in w.engines {
        R.SameHandler(w.loop, r, h);
      }
      if h in w.engines && w.engines[h].owed != {} {
        MainStays(w.loop, r, h);
      }
    }
  }

  lemma EngineKeeps(w: World, h: HandlerId, o: O.Event)
    requires Kept(w) && h in w.engines && O.Allowed(w.engines[h], o)
    requires R.Pointer(R.Main, h) in w.loop.held || CompletionAllowed(w.engines[h], o)
    ensures Kept(w.(engines := w.engines[h := O.Step(w.engines[h], o)]))
  {
    hide R.Kept, R.Quiet, O.Owned, O.Tight, O.Step;
    O.StepKeeps(w.engines[h], o);
    if CompletionAllowed(w.engines[h], o) {
      CompletionOwes(w.engines[h], o);
    }
  }

  lemma {:induction false} PostAllOwes(s: O.State, body: seq<O.Call>)
    ensures O.PostAll(s, body).owed == s.owed
    decreases |body|
  {
    if body == [] {
    } else {
      PostAllOwes(O.PostOne(s, body[0]), body[1..]);
    }
  }

  /** A completion owes no insert that was not owed before it. */
  lemma CompletionOwes(s: O.State, o: O.Event)
    requires CompletionAllowed(s, o)
    ensures O.Step(s, o).owed == s.owed
  {
    hide O.PostAll;
    if o.Success? {
      var t := O.TakeBack(s, o.addr);
      if O.Alive(t, o.addr) {
        PostAllOwes(O.Note(t, o.addr, O.OpAt(t, o.addr).(runs := O.OpAt(t, o.addr).runs + 1)), o.body);
      }
    }
  }

  lemma StepKeeps(w: World, e: Event)
    requires Kept(w) && Allowed(w, e)
    ensures Kept(Step(w, e))
  {
    match e
    case Loop(r, first) => LoopKeeps(w, r, first);
    case Completion(fd, o) =>
      if w.loop.table[fd].ty == R.Completion {
        EngineKeeps(w, w.loop.table[fd].handler, o);
      }
    case Use(h, o) => EngineKeeps(w, h, o);
  }

  lemma {:induction false} RunKeeps(es: seq<Event>)
    requires AllowedAlong(es)
    ensures Kept(Run(es))
  {
    hide Kept, Step, Allowed;
    if es == [] {
      StartKept();
    } else {
      RunKeeps(es[..|es| - 1]);
      StepKeeps(Run(es[..|es| - 1]), es[|es| - 1]);
    }
  }

  lemma StartKept()
    ensures Kept(Start)
  {
  }

  // ---------------------------------------------------------------- what happened to each

  /** What happened at the reactor. */
  function LoopEvents(es: seq<Event>): seq<R.Event> {
    if es == [] then []
    else
      var front := LoopEvents(es[..|es| - 1]);
      if es[|es| - 1].Loop? then front + [es[|es| - 1].r] else front
  }

  function LoopAfter(es: seq<Event>): R.State {
    R.Run(R.Start, LoopEvents(es))
  }

  /** A server's handler has a receive posted before it is registered; a client's has nothing. */
  function Birth(first: Option<O.Addr>): seq<O.Event> {
    if first.None? then [] else [O.Post(O.Call(first.value, true, true))]
  }

  /** What happened to the operations of a handler since it was made. */
  function History(es: seq<Event>, h: HandlerId): seq<O.Event> {
    if es == [] then []
    else
      var front := es[..|es| - 1];
      var loop := LoopAfter(front);
      match es[|es| - 1]
      case Loop(_, first) => if h in loop.alive then History(front, h) else Birth(first)
      case Completion(fd, o) =>
        if fd in loop.table && loop.table[fd].ty == R.Completion && loop.table[fd].handler == h
        then History(front, h) + [o] else History(front, h)
      case Use(g, o) => if g == h then History(front, h) + [o] else History(front, h)
  }

  ghost predicate Told(es: seq<Event>) {
    var w := Run(es);
    && w.loop == LoopAfter(es)
    && (forall h <- w.engines :: w.engines[h] == O.Run(O.Start, History(es, h)) && O.AllowedAlong(O.Start, History(es, h)))
  }

  lemma {:induction false} LoopSnoc(s: R.State, es: seq<R.Event>, e: R.Event)
    ensures R.Run(s, es + [e]) == R.Step(R.Run(s, es), e)
    decreases |es|
  {
    hide R.Step;
    if es == [] {
      assert [e][1..] == [];
    } else {
      assert (es + [e])[1..] == es[1..] + [e];
      LoopSnoc(R.Step(s, es[0]), es[1..], e);
    }
  }

  lemma EngineSnoc(es: seq<O.Event>, o: O.Event)
    requires O.AllowedAlong(O.Start, es) && O.Allowed(O.Run(O.Start, es), o)
    ensures O.AllowedAlong(O.Start, es + [o]) && O.Run(O.Start, es + [o]) == O.Step(O.Run(O.Start, es), o)
  {
    O.Extend(es, o);
  }

  lemma BirthTold(first: Option<O.Addr>)
    ensures O.Run(O.Start, Birth(first)) == Begun(first) && O.AllowedAlong(O.Start, Birth(first))
  {
    O.NothingYet();
    if first.Some? {
      var e := O.Post(O.Call(first.value, true, true));
      O.Extend([], e);
      assert [] + [e] == [e];
    }
  }

  lemma LoopTold(es: seq<Event>, r: R.Event, first: Option<O.Addr>)
    requires Told(es) && Kept(Run(es)) && Allowed(Run(es), Loop(r, first))
    ensures Told(es + [Loop(r, first)])
  {
    hide R.Step, R.Run, R.Kept, R.Quiet, O.Run, O.AllowedAlong;
    var more := es + [Loop(r, first)];
    assert more[..|es|] == es;
    LoopSnoc(R.Start, LoopEvents(es), r);
    var w, v := Run(es), Run(more);
    forall h <- v.engines
      ensures v.engines[h] == O.Run(O.Start, History(more, h)) && O.AllowedAlong(O.Start, History(more, h))
    {
      BirthTold(first);
      assert h in w.engines <==> h in w.loop.alive by {
        PeersStay(w, r, first, h);
      }
    }
  }

  /** A handler that comes out of an event with an engine had one, or is new. */
  lemma PeersStay(w: World, r: R.Event, first: Option<O.Addr>, h: HandlerId)
    requires Kept(w) && Allowed(w, Loop(r, first)) && h in Step(w, Loop(r, first)).engines
    ensures h in w.engines <==> h in w.loop.alive
  {
    hide R.Kept, R.Quiet, R.Step, O.Owned;
    if h in w.loop.alive {
      R.SameHandler(w.loop, r, h);
    }
  }

  lemma EngineTold(es: seq<Event>, e: Event, h: HandlerId, o: O.Event)
    requires Told(es) && h in Run(es).engines && O.Allowed(Run(es).engines[h], o)
    requires e == Use(h, o) || (exists fd :: e == Completion(fd, o) && fd in LoopAfter(es).table
                                 && LoopAfter(es).table[fd].ty == R.Completion && LoopAfter(es).table[fd].handler == h)
    requires Run(es + [e]) == Run(es).(engines := Run(es).engines[h := O.Step(Run(es).engines[h], o)])
    ensures Told(es + [e])
  {
    hide R.Run, O.Run, O.AllowedAlong, O.Step, Run, O.Allowed;
    var more := es + [e];
    assert more[..|es|] == es;
    EngineSnoc(History(es, h), o);
  }

  lemma UntouchedTold(es: seq<Event>, fd: R.Fd, o: O.Event)
    requires Told(es) && Run(es + [Completion(fd, o)]) == Run(es)
    requires !(fd in LoopAfter(es).table && LoopAfter(es).table[fd].ty == R.Completion)
    ensures Told(es + [Completion(fd, o)])
  {
    hide R.Run, O.Run, O.AllowedAlong, Run;
    assert (es + [Completion(fd, o)])[..|es|] == es;
  }

  lemma {:induction false} RunTold(es: seq<Event>)
    requires AllowedAlong(es)
    ensures Told(es)
  {
    if es == [] {
    } else {
      hide Told, Kept, Allowed, Step;
      var front, e := es[..|es| - 1], es[|es| - 1];
      assert es == front + [e];
      RunTold(front);
      RunKeeps(front);
      StepTold(front, e);
    }
  }

  lemma StepTold(es: seq<Event>, e: Event)
    requires Told(es) && Kept(Run(es)) && Allowed(Run(es), e)
    ensures Told(es + [e])
  {
    hide O.Step, O.Allowed, R.Step, R.Run, O.Run, O.AllowedAlong, Told;
    var w := Run(es);
    assert (es + [e])[..|es|] == es;
    assert w.loop == LoopAfter(es) by {
      LoopIsTold(es);
    }
    match e
    case Loop(r, first) => LoopTold(es, r, first);
    case Use(h, o) => EngineTold(es, e, h, o);
    case Completion(fd, o) =>
      if w.loop.table[fd].ty == R.Completion {
        EngineTold(es, e, w.loop.table[fd].handler, o);
      } else {
        UntouchedTold(es, fd, o);
      }
  }

  lemma LoopIsTold(es: seq<Event>)
    requires Told(es)
    ensures Run(es).loop == LoopAfter(es)
  {
  }

  // ---------------------------------------------------------------- main results

  /**
   Over every run: the reactor is where its own events take it, every connection handler that lives has
   an engine, and the engine is where what happened to that handler since it was made takes it.
   */
  lemma EnginesAreHistories(es: seq<Event>, h: HandlerId)
    requires AllowedAlong(es)
    ensures var w := Run(es);
            && !w.fault && w.loop == LoopAfter(es)
            && (h in w.engines <==> h in w.loop.alive && w.loop.alive[h].Peer?)
            && (h in w.engines ==> O.AllowedAlong(O.Start, History(es, h)) && w.engines[h] == O.Run(O.Start, History(es, h)))
  {
    RunTold(es);
    RunKeeps(es);
  }

  /**
   Over every run of the loop, its handlers and their completions: a completion descriptor leads to a
   living handler with an engine in order, so that the callback that runs there finds what it captured.
   */
  lemma CallbackFindsHandler(es: seq<Event>, fd: R.Fd)
    requires AllowedAlong(es) && fd in Run(es).loop.epoll
    ensures var w := Run(es);
            && !w.fault && fd in w.loop.table && w.loop.table[fd].id == w.loop.epoll[fd]
            && (w.loop.table[fd].ty == R.Completion ==>
                  var h := w.loop.table[fd].handler;
                  h in w.loop.alive && w.loop.alive[h].Peer? && h in w.engines && O.Owned(w.engines[h], {}))
  {
    RunKeeps(es);
  }

  /**
   A handler that the next event ends leaves no operation behind: each was freed once, and no callback
   of it can run.  If no completion overtook its operation's insert, no dead pointer was freed.
   */
  lemma EndFreesOperations(es: seq<Event>, e: Event, h: HandlerId)
    requires AllowedAlong(es) && Allowed(Run(es), e) && h in Run(es).engines && h !in Step(Run(es), e).engines
    ensures var last := O.Destroy(Run(es).engines[h]);
            && last.heap == map[] && (forall op <- last.ops :: op.frees == 1)
            && (TimelyAlong(es) ==> !last.fault)
            && h !in Step(Run(es), e).loop.alive
  {
    hide R.Kept, R.Quiet, R.Step, R.Allowed, TimelyAlong;
    RunKeeps(es);
    var w := Run(es);
    StepKeeps(w, e);
    assert w.engines[h].owed == {} by {
      NothingOwed(w, e, h);
    }
    FreedOnce(w.engines[h]);
    if TimelyAlong(es) {
      RunTight(es);
    }
  }

  // ---------------------------------------------------------------- inserts before completions

  /** The event is not the success of an operation whose insert its handler's user still owes. */
  predicate Timely(w: World, e: Event) {
    e.Completion? && e.fd in w.loop.table && w.loop.table[e.fd].handler in w.engines ==>
      O.Timely(w.engines[w.loop.table[e.fd].handler], e.o)
  }

  predicate TimelyAlong(es: seq<Event>) {
    es != [] ==> TimelyAlong(es[..|es| - 1]) && Timely(Run(es[..|es| - 1]), es[|es| - 1])
  }

  predicate AllTight(w: World) {
    forall h <- w.engines :: O.Tight(w.engines[h], {})
  }

  lemma EngineTight(w: World, h: HandlerId, o: O.Event)
    requires Kept(w) && AllTight(w) && h in w.engines && O.Allowed(w.engines[h], o) && O.Timely(w.engines[h], o)
    ensures AllTight(w.(engines := w.engines[h := O.Step(w.engines[h], o)]))
  {
    hide R.Kept, R.Quiet, O.Owned, O.Tight, O.Step, O.Timely;
    O.StepKeeps(w.engines[h], o);
  }

  lemma StepTight(w: World, e: Event)
    requires Kept(w) && AllTight(w) && Allowed(w, e) && Timely(w, e)
    ensures AllTight(Step(w, e))
  {
    hide R.Kept, R.Quiet, R.Step, R.Allowed, O.Owned, O.Tight, O.Step, O.Allowed;
    match e
    case Loop(r, first) => BegunInOrder(first);
    case Completion(fd, o) =>
      if fd in w.loop.table && w.loop.table[fd].handler in w.engines {
        EngineTight(w, w.loop.table[fd].handler, o);
      }
    case Use(h, o) =>
      if h in w.engines {
        EngineTight(w, h, o);
      }
  }

  lemma {:induction false} RunTight(es: seq<Event>)
    requires AllowedAlong(es) && TimelyAlong(es)
    ensures AllTight(Run(es))
  {
    hide Kept, Step, Allowed, Timely;
    if es == [] {
    } else {
      RunTight(es[..|es| - 1]);
      RunKeeps(es[..|es| - 1]);
      StepTight(Run(es[..|es| - 1]), es[|es| - 1]);
    }
  }

  // ---------------------------------------------------------------- the last step

  lemma NothingOwed(w: World, e: Event, h: HandlerId)
    requires Kept(w) && Allowed(w, e) && h in w.engines && h !in Step(w, e).engines
    ensures w.engines[h].owed == {} && e.Loop?
  {
    hide R.Quiet, R.Step, R.Allowed, O.Owned;
    if e.Loop? && w.engines[h].owed != {} {
      MainStays(w.loop, e.r, h);
      R.StepKeeps(w.loop, e.r);
      HeldLives(R.Step(w.loop, e.r), h);
    }
  }

  lemma HeldLives(s: R.State, h: HandlerId)
    requires R.Kept(s, {}) && R.Pointer(R.Main, h) in s.held
    ensures h in s.alive
  {
    assert R.Pointer(R.Main, h).target == h;
  }

  lemma FreedOnce(s: O.State)
    requires O.Owned(s, {}) && s.owed == {}
    ensures var t := O.Destroy(s);
            && t.heap == map[] && (forall op <- t.ops :: op.frees == 1)
            && (O.Tight(s, {}) ==> !t.fault)
  {
    var t := O.Destroy(s);
    forall n | 0 <= n < |t.ops|
      ensures t.ops[n].frees == 1
    {
      assert O.Orderly(s, {}, n);
    }
    forall a <- s.heap
      ensures a in s.table
    {
      assert O.Orderly(s, {}, s.heap[a]);
    }
  }
}
