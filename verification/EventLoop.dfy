/** The `Reactor` object: its table is updated in place by registration, removal and the handlers it dispatches. */
module EventLoop {
  import opened Reactor

  /** The loop over the kernel's wake-ups; it ends early when the table is empty. */
  function Loop(s: State, wakes: seq<(Fd, Action)>): State
    decreases |wakes|
  {
    if wakes == [] then s
    else
      var t := Dispatch(s, wakes[0].0, wakes[0].1);
      if t.table == map[] then t else Loop(t, wakes[1..])
  }

  predicate LoopAllowed(s: State, wakes: seq<(Fd, Action)>)
    decreases |wakes|
  {
    wakes != [] ==>
      && wakes[0].0 in s.epoll
      && Allowed(s, Wake(wakes[0].0, wakes[0].1))
      && LoopAllowed(Dispatch(s, wakes[0].0, wakes[0].1), wakes[1..])
  }

  /** The wake-ups as events. */
  function Wakes(wakes: seq<(Fd, Action)>): (es: seq<Event>)
    ensures |es| == |wakes|
  {
    seq(|wakes|, i requires 0 <= i < |wakes| => Wake(wakes[i].0, wakes[i].1))
  }

  /** The loop has handled the first `k` wake-ups: all of them, or it stopped because the table was empty. */
  ghost predicate StoppedAfter(s: State, wakes: seq<(Fd, Action)>, k: nat) {
    && k <= |wakes|
    && Loop(s, wakes) == Run(s, Wakes(wakes[..k]))
    && (k < |wakes| ==> Run(s, Wakes(wakes[..k])).table == map[])
  }

  /** The loop handles the kernel's wake-ups in order and leaves one unhandled only if the table was empty before it. */
  lemma {:induction false} LoopHandles(s: State, wakes: seq<(Fd, Action)>) returns (k: nat)
    ensures StoppedAfter(s, wakes, k) && (wakes != [] ==> k > 0)
    decreases |wakes|
  {
    if wakes == [] {
      k := 0;
    } else {
      var t := Dispatch(s, wakes[0].0, wakes[0].1);
      if t.table == map[] {
        k := 1;
        assert Wakes(wakes[..1]) == [Wake(wakes[0].0, wakes[0].1)];
        assert Wakes(wakes[..1])[1..] == [];
        assert Run(s, Wakes(wakes[..1])) == Run(t, []);
      } else {
        var m := LoopHandles(t, wakes[1..]);
        k := m + 1;
        assert Wakes(wakes[..k])[1..] == Wakes(wakes[1..][..m]);
        assert Run(s, Wakes(wakes[..k])) == Run(t, Wakes(wakes[1..][..m]));
      }
    }
  }

  /** Over wake-ups the kernel can report, the loop is the run of all of them. */
  lemma {:induction false} LoopIsRun(s: State, wakes: seq<(Fd, Action)>)
    requires Kept(s, {}) && Quiet(s) && LoopAllowed(s, wakes)
    ensures Loop(s, wakes) == Run(s, Wakes(wakes))
    decreases |wakes|
  {
    if wakes != [] {
      var t := Dispatch(s, wakes[0].0, wakes[0].1);
      DispatchKeeps(s, wakes[0].0, wakes[0].1);
      LoopIsRun(t, wakes[1..]);
      assert Wakes(wakes)[1..] == Wakes(wakes[1..]);
    }
  }

  /**
   `objects` is what pointers to handlers lead to; it may be followed only for handlers that live.
   The kernel's side and the handlers' lives are in `world`, which follows what the calls do to them.
   */
  class EventReactor {
    var eventTable: map<Fd, Node>
    var nextNode: nat
    var objects: map<HandlerId, Handler>
    ghost var world: State

    ghost function Now(): State
      reads this
    {
      world.(table := eventTable, nextNode := nextNode)
    }

    /** Pointers to living handlers can be followed. */
    ghost predicate Valid()
      reads this
    {
      forall h <- world.alive :: h in objects && objects[h] == world.alive[h]
    }

    constructor ()
      ensures Valid() && Now() == Start
    {
      eventTable, nextNode, objects := map[], 0, map[];
      world := Start;
    }

    /** `event_table.erase`: the node's reference to its handler goes with it. */
    method EraseEntry(fd: Fd)
      requires Valid()
      modifies this`eventTable, this`world
      ensures Valid() && Now() == Erase(old(Now()), fd)
    {
      if fd in eventTable {
        ghost var h := eventTable[fd].handler;
        eventTable := eventTable - {fd};
        world := Collect(world.(table := eventTable), h);
      }
    }

    /** A new node, or the one that stands there with its type and handler overwritten. */
    method EmplaceEntry(fd: Fd, ty: EventType, h: HandlerId)
      requires Valid()
      modifies this`eventTable, this`nextNode, this`world
      ensures Valid() && Now() == Emplace(old(Now()), fd, ty, h)
      ensures fd in eventTable
    {
      if fd in eventTable {
        ghost var was := eventTable[fd].handler;
        eventTable := eventTable[fd := eventTable[fd].(ty := ty, handler := h)];
        world := Collect(world.(table := eventTable), was);
      } else {
        eventTable := eventTable[fd := Node(nextNode, ty, h)];
        nextNode := nextNode + 1;
      }
    }

    /** `register_handler`: emplace, fill in, tell the kernel, and take the entry back if it refuses. */
    method RegisterHandler(h: HandlerId, ty: EventType, a: Answer, added: bool) returns (ret: int)
      requires Valid() && h in world.alive && added == KernelAdds(Now(), h, ty, a)
      modifies this
      ensures Valid() && Now() == Register(old(Now()), h, ty, a)
      ensures ret == 0 <==> Registers(old(Now()), h, ty, a)
    {
      hide Emplace, Erase;
      var fd := FdOf(objects[h], ty);
      if fd == -1 || !a.nonblock {
        return -1;
      }
      EmplaceEntry(fd, ty, h);
      if !added {
        EraseEntry(fd);
        return -1;
      }
      world := world.(epoll := world.epoll[fd := eventTable[fd].id]);
      ret := 0;
    }

    /** `remove_handler`. */
    method RemoveHandler(h: HandlerId, ty: EventType) returns (ret: int)
      requires Valid() && h in world.alive
      modifies this`eventTable, this`world
      ensures Valid() && Now() == Remove(old(Now()), h, ty)
      ensures ret == if FdOf(old(world).alive[h], ty) == -1 then -1 else 0
    {
      var fd := FdOf(objects[h], ty);
      if fd == -1 {
        return -1;
      }
      world := world.(epoll := world.epoll - {fd});
      EraseEntry(fd);
      ret := 0;
    }

    /** A handler removes one of its own entries, through a pointer to itself that lives for the call. */
    method RemoveOwnEntry(h: HandlerId, ty: EventType)
      requires Valid() && h in world.alive
      modifies this`eventTable, this`world
      ensures Valid() && Now() == RemoveOwn(old(Now()), h, ty)
    {
      world := Hold(world, Argument, h);
      var _ := RemoveHandler(h, ty);
      world := Drop(world.(table := eventTable), Argument, h);
    }

    /** `remove_self`: the handler may be gone when this returns, and is not gone before its last use. */
    method RemoveBoth(h: HandlerId)
      requires Valid() && Kept(Now(), {}) && Quiet(Now()) && h in world.alive && world.alive[h].Peer?
      modifies this`eventTable, this`world
      ensures Valid() && Now() == RemoveSelf(old(Now()), h)
      ensures Kept(Now(), {}) && Quiet(Now())
    {
      FirstRemoval(Now(), h);
      RemoveSelfKeeps(Now(), h);
      RemoveOwnEntry(h, Connection);
      RemoveOwnEntry(h, Completion);
    }

    /** `register_self`. */
    method RegisterBoth(h: HandlerId, a: Answer, b: Answer)
      requires Valid() && Kept(Now(), {}) && Quiet(Now())
      requires h in world.alive && world.alive[h].Peer? && Held(Now(), h)
      requires forall ty :: FdOf(world.alive[h], ty) !in eventTable
      modifies this
      ensures Valid() && Now() == RegisterSelf(old(Now()), h, a, b)
      ensures Kept(Now(), {}) && Now().held == old(Now().held)
    {
      hide Rooted, DistinctNodes, Referenced;
      RegisterSelfKeeps(Now(), h, a, b);
      Weaken(Now(), h);
      RegisterKeeps(Now(), h, Connection, a);
      NewToKernel(Now(), h, Connection, a);
      var ret := RegisterHandler(h, Connection, a, a.added);
      if ret != 0 {
        return;
      }
      assert Owns(old(Now()), h);
      RegisterKeeps(Now(), h, Completion, b);
      NewToKernel(Now(), h, Completion, b);
      ret := RegisterHandler(h, Completion, b, b.added);
      if ret != 0 {
        RemoveOwnEntry(h, Connection);
      }
    }

    /** `AcceptorHandler::handle` on a connection request. */
    method AdmitNew(h: HandlerId, conn: Fd, comp: Fd, a: Answer, b: Answer)
      requires Valid() && Kept(Now(), {}) && Quiet(Now()) && New(Now(), h, Peer(conn, comp))
      modifies this
      ensures Valid() && Now() == AdmitPeer(old(Now()), h, conn, comp, a, b)
    {
      hide Kept, RegisterSelf;
      CreateKeeps(Now(), Local, h, Peer(conn, comp));
      objects := objects[h := Peer(conn, comp)];
      world := Create(world, Local, h, Peer(conn, comp));
      assert Now() == Create(old(Now()), Local, h, Peer(conn, comp));
      RegisterBoth(h, a, b);
      world := Drop(world.(table := eventTable), Local, h);
    }

    /** One event: the kernel's pointer leads to a live node of a live handler. */
    method HandleEvent(fd: Fd, act: Action)
      requires Valid() && Kept(Now(), {}) && Quiet(Now()) && fd in world.epoll && Allowed(Now(), Wake(fd, act))
      modifies this
      ensures Valid() && Now() == Dispatch(old(Now()), fd, act)
      ensures Kept(Now(), {}) && Quiet(Now())
    {
      DispatchKeeps(Now(), fd, act);
      assert fd in Now().table;
      var node := eventTable[fd];
      assert node.id == world.epoll[fd] && node.handler in world.alive;
      match (node.ty, act) {
        case (Accept, Admit(h, conn, comp, a, b)) => AdmitNew(h, conn, comp, a, b);
        case (Connection, Closed) => RemoveBoth(node.handler);
        case _ =>
      }
    }

    /** `handle_events`, over whatever the kernel reports. */
    method HandleEvents(wakes: seq<(Fd, Action)>)
      requires Valid() && Kept(Now(), {}) && Quiet(Now()) && LoopAllowed(Now(), wakes)
      modifies this
      ensures Valid() && Now() == Loop(old(Now()), wakes)
      ensures Kept(Now(), {}) && Quiet(Now())
    {
      var rest := wakes;
      while rest != []
        invariant Valid() && Kept(Now(), {}) && Quiet(Now()) && LoopAllowed(Now(), rest)
        invariant Loop(Now(), rest) == Loop(old(Now()), wakes)
        decreases |rest|
      {
        HandleEvent(rest[0].0, rest[0].1);
        if eventTable == map[] {
          return;
        }
        rest := rest[1..];
      }
    }
  }

  /** The kernel does not watch a descriptor that is not in the table. */
  lemma NewToKernel(s: State, h: HandlerId, ty: EventType, a: Answer)
    requires Kept(s, {h}) && h in s.alive && FdOf(s.alive[h], ty) !in s.table
    ensures KernelAdds(s, h, ty, a) == a.added
  {
  }
}
