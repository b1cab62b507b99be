/**
 The reactor's table against the kernel's epoll set, and the lifetime of the handlers.

 The kernel keeps raw pointers to the table's nodes and the loop calls a handler through such a
 pointer, while the handler may register others or remove its own entries.  A handler lives as
 long as a table entry or some holder of a shared pointer refers to it; its destruction closes its
 file descriptors, which also takes them out of the epoll set.  `open` is the kernel's record of
 open descriptors and whose they are; `fault` marks a node or a handler touched after its end.
 */
module Reactor {

  type Fd = int
  type HandlerId = nat

  datatype EventType = Accept | Connection | Completion

  /** A handler's file descriptors: the acceptor has one, a connection one for each of its event types. */
  datatype Handler = Acceptor(fd: Fd) | Peer(conn: Fd, comp: Fd)

  /** A table node; its `id` tells it from every node that ever was, as a pointer to it does while it lives. */
  datatype Node = Node(id: nat, ty: EventType, handler: HandlerId)

  /** Who holds a shared pointer to a handler: the main program, a local variable, or an argument of a running call. */
  datatype Holder = Main | Local | Argument

  datatype Pointer = Pointer(holder: Holder, target: HandlerId)

  datatype State = State(
    table: map<Fd, Node>,
    epoll: map<Fd, nat>,
    open: map<Fd, HandlerId>,
    alive: map<HandlerId, Handler>,
    held: set<Pointer>,
    nextNode: nat,
    fault: bool)

  const Start: State := State(map[], map[], map[], map[], {}, 0, false)

  /** What the kernel answers while a descriptor is registered. */
  datatype Answer = Answer(nonblock: bool, added: bool)

  // ---------------------------------------------------------------- references

  /** `get_handle`; -1 where a handler has no descriptor for the type. */
  function FdOf(h: Handler, ty: EventType): Fd {
    match (h, ty)
    case (Acceptor(fd), _) => fd
    case (Peer(conn, _), Connection) => conn
    case (Peer(_, comp), Completion) => comp
    case (Peer(_, _), Accept) => -1
  }

  function Fds(h: Handler): set<Fd> {
    match h
    case Acceptor(fd) => {fd}
    case Peer(conn, comp) => {conn, comp}
  }

  predicate InTable(s: State, h: HandlerId) {
    exists fd <- s.table :: s.table[fd].handler == h
  }

  predicate Held(s: State, h: HandlerId) {
    Pointer(Main, h) in s.held || Pointer(Local, h) in s.held || Pointer(Argument, h) in s.held
  }

  /** Reads a member of the handler. */
  function Touch(s: State, h: HandlerId): State {
    if h in s.alive then s else s.(fault := true)
  }

  /** Destroys the handler if nothing refers to it any more. */
  function Collect(s: State, h: HandlerId): State {
    if h in s.alive && !Held(s, h) && !InTable(s, h)
    then
      var fds := Fds(s.alive[h]);
      s.(alive := s.alive - {h}, open := s.open - fds, epoll := s.epoll - fds)
    else s
  }

  function Hold(s: State, who: Holder, h: HandlerId): State {
    s.(held := s.held + {Pointer(who, h)})
  }

  function Drop(s: State, who: Holder, h: HandlerId): State {
    Collect(s.(held := s.held - {Pointer(who, h)}), h)
  }

  /** Erases a node, and with it the node's reference to its handler. */
  function Erase(s: State, fd: Fd): State {
    if fd in s.table then Collect(s.(table := s.table - {fd}), s.table[fd].handler) else s
  }

  // ---------------------------------------------------------------- registration

  /** The node `register_handler` leaves at `fd`: a new one, or the one that stood there, overwritten. */
  function Emplace(s: State, fd: Fd, ty: EventType, h: HandlerId): (t: State)
    ensures fd in t.table && t.table - {fd} == s.table - {fd}
    ensures t.table[fd] == Node(if fd in s.table then s.table[fd].id else s.nextNode, ty, h)
  {
    if fd in s.table
    then Collect(s.(table := s.table[fd := s.table[fd].(ty := ty, handler := h)]), s.table[fd].handler)
    else s.(table := s.table[fd := Node(s.nextNode, ty, h)], nextNode := s.nextNode + 1)
  }

  /** What `epoll_ctl` answers: the kernel refuses a descriptor it already watches. */
  predicate KernelAdds(s: State, h: HandlerId, ty: EventType, a: Answer)
    requires h in s.alive
  {
    var fd := FdOf(s.alive[h], ty);
    a.added && fd !in Emplace(s, fd, ty, h).epoll
  }

  /** `register_handler` returns 0. */
  predicate Registers(s: State, h: HandlerId, ty: EventType, a: Answer) {
    h in s.alive && FdOf(s.alive[h], ty) != -1 && a.nonblock && KernelAdds(s, h, ty, a)
  }

  /** `register_handler`. */
  function Register(s: State, h: HandlerId, ty: EventType, a: Answer): State {
    if h !in s.alive then s.(fault := true)
    else
      var fd := FdOf(s.alive[h], ty);
      if fd == -1 || !a.nonblock then s
      else
        var t := Emplace(s, fd, ty, h);
        if fd in t.epoll || !a.added then Erase(t, fd)
        else t.(epoll := t.epoll[fd := t.table[fd].id])
  }

  /** `remove_handler`. */
  function Remove(s: State, h: HandlerId, ty: EventType): State {
    if h !in s.alive then s.(fault := true)
    else
      var fd := FdOf(s.alive[h], ty);
      if fd == -1 then s else Erase(s.(epoll := s.epoll - {fd}), fd)
  }

  /** A call of `remove_handler` by a handler on itself: the shared pointer it passes lives for the call. */
  function RemoveOwn(s: State, h: HandlerId, ty: EventType): State {
    Drop(Remove(Hold(Touch(s, h), Argument, h), h, ty), Argument, h)
  }

  /** `remove_self` of a connection handler; nothing of the handler is read after it. */
  function RemoveSelf(s: State, h: HandlerId): State {
    RemoveOwn(RemoveOwn(Touch(s, h), h, Connection), h, Completion)
  }

  /** `register_self` of a connection handler: both entries, or none. */
  function RegisterSelf(s: State, h: HandlerId, a: Answer, b: Answer): State {
    var t := Register(s, h, Connection, a);
    if !Registers(s, h, Connection, a) then t
    else
      var u := Register(t, h, Completion, b);
      if !Registers(t, h, Completion, b) then RemoveOwn(u, h, Connection) else u
  }

  // ---------------------------------------------------------------- faults and ends

  /** A fault is what it is meant to be: using a handler that is gone raises it. */
  lemma DeadUseFaults(s: State, h: HandlerId, ty: EventType, a: Answer)
    requires h !in s.alive
    ensures Touch(s, h).fault && Register(s, h, ty, a).fault && Remove(s, h, ty).fault
    ensures RemoveOwn(s, h, ty).fault && RemoveSelf(s, h).fault
  {
  }

  /** So does following the kernel's pointer to a node that is gone, or a node's to a handler that is. */
  lemma StaleWakeFaults(s: State, fd: Fd)
    requires fd in s.epoll
    requires fd in s.table && s.table[fd].id == s.epoll[fd] ==> s.table[fd].handler !in s.alive
    ensures Dispatch(s, fd, Nothing).fault && Dispatch(s, fd, Closed).fault
  {
  }

  /** The last reference ends a handler, whatever drops it, and its end closes its descriptors, which the kernel watches no longer. */
  lemma LastReferenceEnds(s: State, h: HandlerId, who: Holder, fd: Fd)
    requires h in s.alive
    ensures var t := Drop(s, who, h);
            (forall p <- s.held :: p.target == h ==> p.holder == who) && !InTable(s, h) ==>
              h !in t.alive && Fds(s.alive[h]) !! t.open.Keys && Fds(s.alive[h]) !! t.epoll.Keys
    ensures var t := Erase(s, fd);
            !Held(s, h) && fd in s.table && (forall x <- s.table :: s.table[x].handler == h <==> x == fd) ==>
              h !in t.alive && Fds(s.alive[h]) !! t.open.Keys && Fds(s.alive[h]) !! t.epoll.Keys
  {
  }

  /** A connection handler has no descriptor to accept on: nothing is registered or removed. */
  lemma NoDescriptor(s: State, h: HandlerId, a: Answer)
    requires h in s.alive && s.alive[h].Peer?
    ensures Register(s, h, Accept, a) == s && Remove(s, h, Accept) == s && !Registers(s, h, Accept, a)
  {
  }

  // ---------------------------------------------------------------- the loop

  /** What a handler does when it is woken. */
  datatype Action =
    | Nothing                                                         // no event, or one that leaves the reactor alone
    | Admit(h: HandlerId, conn: Fd, comp: Fd, a: Answer, b: Answer)   // a connection request
    | Closed                                                          // the connection was closed or lost

  function Opened(open: map<Fd, HandlerId>, h: HandlerId, handler: Handler): map<Fd, HandlerId> {
    match handler
    case Acceptor(fd) => open[fd := h]
    case Peer(conn, comp) => open[conn := h][comp := h]
  }

  function Create(s: State, who: Holder, h: HandlerId, handler: Handler): State {
    Hold(s.(alive := s.alive[h := handler], open := Opened(s.open, h, handler)), who, h)
  }

  /** `AcceptorHandler::handle`: the new handler is held by a local pointer while it registers itself. */
  function AdmitPeer(s: State, h: HandlerId, conn: Fd, comp: Fd, a: Answer, b: Answer): State {
    Drop(RegisterSelf(Create(s, Local, h, Peer(conn, comp)), h, a, b), Local, h)
  }

  /** One turn of `handle_events`: the kernel's pointer for `fd` is followed to the node and its handler. */
  function Dispatch(s: State, fd: Fd, act: Action): State {
    if fd !in s.epoll then s
    else if fd !in s.table || s.table[fd].id != s.epoll[fd] then s.(fault := true)
    else
      var t := Touch(s, s.table[fd].handler);
      match (s.table[fd].ty, act)
      case (Accept, Admit(h, conn, comp, a, b)) => AdmitPeer(t, h, conn, comp, a, b)
      case (Connection, Closed) => RemoveSelf(t, s.table[fd].handler)
      case _ => t
  }

  /** The loop's wake-ups, and what the main program does before and after it runs. */
  datatype Event =
    | Wake(fd: Fd, act: Action)
    | OpenAcceptor(h: HandlerId, fd: Fd, a: Answer)
    | OpenPeer(h: HandlerId, conn: Fd, comp: Fd, a: Answer, b: Answer)
    | LetGo(h: HandlerId)

  function Step(s: State, e: Event): State {
    match e
    case Wake(fd, act) => Dispatch(s, fd, act)
    case OpenAcceptor(h, fd, a) => Register(Create(s, Main, h, Acceptor(fd)), h, Accept, a)
    case OpenPeer(h, conn, comp, a, b) => RegisterSelf(Create(s, Main, h, Peer(conn, comp)), h, a, b)
    case LetGo(h) => if Pointer(Main, h) in s.held then Drop(s, Main, h) else s
  }

  function Run(s: State, es: seq<Event>): State
    decreases |es|
  {
    if es == [] then s else Run(Step(s, es[0]), es[1..])
  }

  // ---------------------------------------------------------------- the environment's side

  /** Descriptors the kernel hands out are not open yet. */
  predicate Unopened(s: State, fd: Fd) {
    0 <= fd && fd !in s.open
  }

  predicate New(s: State, h: HandlerId, handler: Handler) {
    && h !in s.alive && !Held(s, h)
    && match handler
       case Acceptor(fd) => Unopened(s, fd)
       case Peer(conn, comp) => Unopened(s, conn) && Unopened(s, comp) && conn != comp
  }

  predicate Allowed(s: State, e: Event) {
    match e
    case Wake(_, Admit(h, conn, comp, _, _)) => New(s, h, Peer(conn, comp))
    case OpenPeer(h, conn, comp, _, _) => New(s, h, Peer(conn, comp))
    case OpenAcceptor(h, fd, _) => New(s, h, Acceptor(fd))
    case _ => true
  }

  predicate AllowedAlong(s: State, es: seq<Event>)
    decreases |es|
  {
    es != [] ==> Allowed(s, es[0]) && AllowedAlong(Step(s, es[0]), es[1..])
  }

  // ---------------------------------------------------------------- agreement

  /** The kernel watches exactly the table's descriptors, through pointers to the nodes that stand there. */
  predicate Agreement(s: State) {
    s.epoll.Keys == s.table.Keys && forall fd <- s.table :: s.epoll[fd] == s.table[fd].id
  }

  /** An entry's handler lives, and the entry stands at that handler's descriptor for its type. */
  predicate Rooted(s: State) {
    forall fd <- s.table ::
      && s.table[fd].handler in s.alive
      && fd != -1 && FdOf(s.alive[s.table[fd].handler], s.table[fd].ty) == fd
      && (s.table[fd].ty == Accept <==> s.alive[s.table[fd].handler].Acceptor?)
  }

  /** Nodes are distinct, and none carries an id still to be given out. */
  predicate DistinctNodes(s: State) {
    && (forall fd <- s.table :: s.table[fd].id < s.nextNode)
    && (forall x, y | x in s.table && y in s.table && s.table[x].id == s.table[y].id :: x == y)
  }

  predicate OpenFor(s: State, fd: Fd, h: HandlerId) {
    0 <= fd && fd in s.open && s.open[fd] == h
  }

  /** The handler's descriptors are open and its own. */
  predicate Owns(s: State, h: HandlerId)
    requires h in s.alive
  {
    match s.alive[h]
    case Acceptor(fd) => OpenFor(s, fd, h)
    case Peer(conn, comp) => OpenFor(s, conn, h) && OpenFor(s, comp, h) && conn != comp
  }

  predicate OwnFds(s: State) {
    forall h <- s.alive :: Owns(s, h)
  }

  /** Every open descriptor is a living handler's. */
  predicate NoneLeaked(s: State) {
    forall fd <- s.open :: s.open[fd] in s.alive && fd in Fds(s.alive[s.open[fd]])
  }

  predicate EntryOf(s: State, fd: Fd, h: HandlerId) {
    fd in s.table && s.table[fd].handler == h
  }

  /** All of the handler's descriptors are in the table. */
  predicate FullyIn(s: State, h: HandlerId)
    requires h in s.alive
  {
    match s.alive[h]
    case Acceptor(fd) => EntryOf(s, fd, h)
    case Peer(conn, comp) => EntryOf(s, conn, h) && EntryOf(s, comp, h)
  }

  /**
   Who is held or in the table lives; a living handler is held or in the table; and a handler that is
   in the table is there for all its descriptors, unless it is in `partial`.
   */
  predicate Referenced(s: State, partial: set<HandlerId>) {
    && (forall h <- s.alive :: h in partial || Held(s, h) || FullyIn(s, h))
    && (forall p <- s.held :: p.target in s.alive)
    && (forall fd <- s.table :: s.table[fd].handler in s.alive)
    && (forall fd <- s.table :: s.table[fd].handler in partial || FullyIn(s, s.table[fd].handler))
  }

  predicate Kept(s: State, partial: set<HandlerId>) {
    && !s.fault && Agreement(s) && Rooted(s) && DistinctNodes(s) && OwnFds(s) && NoneLeaked(s)
    && Referenced(s, partial)
  }

  /** An entry at a handler's descriptor is that handler's. */
  lemma OwnEntry(s: State, partial: set<HandlerId>, h: HandlerId, fd: Fd)
    requires Kept(s, partial) && h in s.alive && fd in Fds(s.alive[h]) && fd in s.table
    ensures s.table[fd].handler == h && InTable(s, h)
  {
  }

  lemma EntriesOpen(s: State, partial: set<HandlerId>)
    requires Kept(s, partial)
    ensures forall fd <- s.table :: OpenFor(s, fd, s.table[fd].handler)
  {
  }

  lemma CreateOwns(s: State, who: Holder, h: HandlerId, handler: Handler)
    requires OwnFds(s) && New(s, h, handler)
    ensures OwnFds(Create(s, who, h, handler))
  {
  }

  lemma CreateLeaksNothing(s: State, who: Holder, h: HandlerId, handler: Handler)
    requires NoneLeaked(s) && New(s, h, handler)
    ensures NoneLeaked(Create(s, who, h, handler))
  {
  }

  lemma CreateReferenced(s: State, who: Holder, h: HandlerId, handler: Handler)
    requires Referenced(s, {}) && h !in s.alive
    ensures Referenced(Create(s, who, h, handler), {})
  {
  }

  lemma CreateKeeps(s: State, who: Holder, h: HandlerId, handler: Handler)
    requires Kept(s, {}) && New(s, h, handler)
    ensures var t := Create(s, who, h, handler);
            Kept(t, {}) && forall ty :: FdOf(handler, ty) !in t.table
  {
    EntriesOpen(s, {});
    hide OwnFds, NoneLeaked, Referenced;
    CreateOwns(s, who, h, handler);
    CreateLeaksNothing(s, who, h, handler);
    CreateReferenced(s, who, h, handler);
  }

  /** The state after the kernel accepted a new entry. */
  function WithEntry(s: State, fd: Fd, ty: EventType, h: HandlerId): State {
    s.(table := s.table[fd := Node(s.nextNode, ty, h)], epoll := s.epoll[fd := s.nextNode], nextNode := s.nextNode + 1)
  }

  lemma WithEntryReferenced(s: State, h: HandlerId, ty: EventType, fd: Fd)
    requires Referenced(s, {h}) && h in s.alive && fd !in s.table
    ensures Referenced(WithEntry(s, fd, ty, h), {h})
  {
    var t := WithEntry(s, fd, ty, h);
    forall g <- t.alive
      ensures g == h || Held(t, g) || FullyIn(t, g)
    {
      assert g in {h} || Held(s, g) || FullyIn(s, g);
    }
    forall x <- t.table
      ensures t.table[x].handler == h || FullyIn(t, t.table[x].handler)
    {
      if t.table[x].handler != h {
        assert t.table[x] == s.table[x];
        assert s.table[x].handler in {h} || FullyIn(s, s.table[x].handler);
      }
    }
  }

  /** Ownership of descriptors depends on the living handlers and the open descriptors only. */
  lemma SameOwners(s: State, t: State)
    requires OwnFds(s) && t.alive == s.alive && t.open == s.open
    ensures OwnFds(t)
  {
    forall g <- t.alive
      ensures Owns(t, g)
    {
      assert Owns(s, g);
    }
  }

  lemma WithEntryKeeps(s: State, h: HandlerId, ty: EventType)
    requires Kept(s, {h}) && h in s.alive
    requires ty == Accept <==> s.alive[h].Acceptor?
    requires FdOf(s.alive[h], ty) != -1 && FdOf(s.alive[h], ty) !in s.table
    ensures Kept(WithEntry(s, FdOf(s.alive[h], ty), ty, h), {h})
  {
    hide Referenced, OwnFds;
    WithEntryReferenced(s, h, ty, FdOf(s.alive[h], ty));
    SameOwners(s, WithEntry(s, FdOf(s.alive[h], ty), ty, h));
  }

  /** Registering a held handler at a descriptor the table does not have adds its entry, or changes nothing. */
  lemma RegisterKeeps(s: State, h: HandlerId, ty: EventType, a: Answer)
    requires Kept(s, {h}) && h in s.alive && Held(s, h)
    requires ty == Accept <==> s.alive[h].Acceptor?
    requires FdOf(s.alive[h], ty) !in s.table
    ensures var t := Register(s, h, ty, a);
            && Kept(t, {h}) && t.alive == s.alive && t.held == s.held
            && (Registers(s, h, ty, a) <==> FdOf(s.alive[h], ty) != -1 && a.nonblock && a.added)
            && (if Registers(s, h, ty, a) then t == WithEntry(s, FdOf(s.alive[h], ty), ty, h)
                else t.table == s.table)
  {
    var fd := FdOf(s.alive[h], ty);
    if Registers(s, h, ty, a) {
      WithEntryKeeps(s, h, ty);
    } else if fd != -1 && a.nonblock {
      assert Emplace(s, fd, ty, h).table - {fd} == s.table;
      assert Register(s, h, ty, a) == s.(nextNode := s.nextNode + 1);
      SkipNodeKeeps(s, h);
    }
  }

  lemma SkipNodeKeeps(s: State, h: HandlerId)
    requires Kept(s, {h})
    ensures Kept(s.(nextNode := s.nextNode + 1), {h})
  {
    var t := s.(nextNode := s.nextNode + 1);
    SameReferences(s, t, h);
  }

  /** References depend on the table, the living handlers and the pointers to them only. */
  lemma SameReferences(s: State, t: State, h: HandlerId)
    requires Referenced(s, {h}) && t.table == s.table && t.alive == s.alive
    requires forall p <- s.held :: p.target == h || p in t.held
    requires forall p <- t.held :: p in s.held || (p.target == h && h in t.alive)
    ensures Referenced(t, {h})
  {
  }

  // ---------------------------------------------------------------- removal

  lemma Weaken(s: State, h: HandlerId)
    requires Kept(s, {})
    ensures Kept(s, {h})
  {
  }

  lemma Strengthen(s: State, h: HandlerId)
    requires Kept(s, {h}) && h in s.alive
    requires FullyIn(s, h) || (Held(s, h) && !InTable(s, h))
    ensures Kept(s, {})
  {
  }

  /** The state without the entry at `fd`. */
  function Without(s: State, fd: Fd): State {
    s.(table := s.table - {fd}, epoll := s.epoll - {fd})
  }

  lemma WithoutReferenced(s: State, h: HandlerId, fd: Fd)
    requires Referenced(s, {h}) && (fd in s.table ==> s.table[fd].handler == h)
    ensures Referenced(Without(s, fd), {h})
  {
    var t := Without(s, fd);
    forall g <- t.alive
      ensures g == h || Held(t, g) || FullyIn(t, g)
    {
      assert g in {h} || Held(s, g) || FullyIn(s, g);
    }
    forall x <- t.table
      ensures t.table[x].handler == h || FullyIn(t, t.table[x].handler)
    {
      assert s.table[x].handler in {h} || FullyIn(s, s.table[x].handler);
    }
  }

  lemma WithoutKeeps(s: State, h: HandlerId, fd: Fd)
    requires Kept(s, {h}) && (fd in s.table ==> s.table[fd].handler == h)
    ensures Kept(Without(s, fd), {h})
  {
    hide Referenced, OwnFds;
    WithoutReferenced(s, h, fd);
    SameOwners(s, Without(s, fd));
  }

  /** Taking a held handler's entry out of the table and the epoll set. */
  lemma RemoveKeeps(s: State, h: HandlerId, ty: EventType)
    requires Kept(s, {h}) && h in s.alive && Held(s, h)
    ensures Remove(s, h, ty) == Without(s, FdOf(s.alive[h], ty))
    ensures Kept(Without(s, FdOf(s.alive[h], ty)), {h})
  {
    var fd := FdOf(s.alive[h], ty);
    if fd in s.table {
      OwnEntry(s, {h}, h, fd);
    } else {
      assert s.table - {fd} == s.table;
      assert s.epoll - {fd} == s.epoll;
    }
    WithoutKeeps(s, h, fd);
  }

  lemma UnholdKeeps(s: State, who: Holder, h: HandlerId)
    requires Kept(s, {h})
    ensures Kept(s.(held := s.held - {Pointer(who, h)}), {h})
  {
    SameReferences(s, s.(held := s.held - {Pointer(who, h)}), h);
  }

  lemma CollectOwns(s: State, h: HandlerId)
    requires OwnFds(s) && h in s.alive && !Held(s, h) && !InTable(s, h)
    ensures OwnFds(Collect(s, h))
  {
    var t := Collect(s, h);
    forall g <- t.alive
      ensures Owns(t, g)
    {
      assert Owns(s, g) && Owns(s, h);
    }
  }

  lemma CollectLeaksNothing(s: State, h: HandlerId)
    requires NoneLeaked(s) && h in s.alive && !Held(s, h) && !InTable(s, h)
    ensures NoneLeaked(Collect(s, h))
  {
    var t := Collect(s, h);
    forall fd <- t.open
      ensures t.open[fd] in t.alive && fd in Fds(t.alive[t.open[fd]])
    {
      assert s.open[fd] in s.alive && fd in Fds(s.alive[s.open[fd]]);
    }
  }

  /** No entry stands at a descriptor of a handler that has none. */
  lemma NoEntryAt(s: State, h: HandlerId)
    requires Kept(s, {h}) && h in s.alive && !InTable(s, h)
    ensures Fds(s.alive[h]) !! s.table.Keys && Fds(s.alive[h]) !! s.epoll.Keys
  {
    forall fd <- Fds(s.alive[h])
      ensures fd !in s.table
    {
      if fd in s.table {
        OwnEntry(s, {h}, h, fd);
      }
    }
  }

  lemma NoPointerTo(s: State, h: HandlerId)
    requires !Held(s, h)
    ensures forall p <- s.held :: p.target != h
  {
    forall p <- s.held
      ensures p.target != h
    {
      match p.holder {
        case Main => assert p == Pointer(Main, p.target);
        case Local => assert p == Pointer(Local, p.target);
        case Argument => assert p == Pointer(Argument, p.target);
      }
    }
  }

  lemma CollectReferenced(s: State, h: HandlerId)
    requires Referenced(s, {h}) && h in s.alive && !Held(s, h) && !InTable(s, h)
    ensures Referenced(Collect(s, h), {})
  {
    var t := Collect(s, h);
    NoPointerTo(s, h);
    forall g <- t.alive
      ensures Held(t, g) || FullyIn(t, g)
    {
      assert g in {h} || Held(s, g) || FullyIn(s, g);
    }
    forall fd <- t.table
      ensures t.table[fd].handler in t.alive && FullyIn(t, t.table[fd].handler)
    {
      assert s.table[fd].handler in {h} || FullyIn(s, s.table[fd].handler);
    }
  }

  lemma CollectRooted(s: State, h: HandlerId)
    requires Rooted(s) && h in s.alive && !Held(s, h) && !InTable(s, h)
    ensures Rooted(Collect(s, h))
  {
    var t := Collect(s, h);
    assert forall fd <- t.table :: s.table[fd].handler != h;
  }

  /** Destroying a handler nothing refers to disturbs no entry. */
  lemma CollectKeeps(s: State, h: HandlerId)
    requires Kept(s, {h}) && h in s.alive && !Held(s, h) && !InTable(s, h)
    ensures var t := Collect(s, h);
            Kept(t, {}) && t.table == s.table && t.held == s.held && t.alive == s.alive - {h}
  {
    NoEntryAt(s, h);
    hide Referenced, OwnFds, NoneLeaked, Fds;
    assert s.epoll - Fds(s.alive[h]) == s.epoll;
    CollectOwns(s, h);
    CollectLeaksNothing(s, h);
    CollectReferenced(s, h);
    CollectRooted(s, h);
  }

  // ---------------------------------------------------------------- handlers acting on themselves

  lemma HoldKeeps(s: State, who: Holder, h: HandlerId)
    requires Kept(s, {h}) && h in s.alive
    ensures Kept(Hold(s, who, h), {h})
  {
    SameReferences(s, Hold(s, who, h), h);
  }

  /** No call is running: nothing is held by an argument. */
  predicate Quiet(s: State) {
    forall p <- s.held :: p.holder != Argument
  }

  /** After a handler's call of `remove_handler` on itself it lives exactly if it is held or still in the table. */
  lemma RemoveOwnKeeps(s: State, h: HandlerId, ty: EventType)
    requires Kept(s, {h}) && Quiet(s) && h in s.alive
    ensures var t := RemoveOwn(s, h, ty);
            var rest := Without(s, FdOf(s.alive[h], ty));
            if Held(s, h) || InTable(rest, h) then t == rest && Kept(t, {h})
            else Kept(t, {}) && t.table == rest.table && t.held == s.held && t.alive == s.alive - {h}
  {
    var u := Hold(s, Argument, h);
    HoldKeeps(s, Argument, h);
    RemoveKeeps(u, h, ty);
    var v := Without(u, FdOf(s.alive[h], ty));
    UnholdKeeps(v, Argument, h);
    var w := v.(held := v.held - {Pointer(Argument, h)});
    assert v.held - {Pointer(Argument, h)} == s.held;
    assert w == Without(s, FdOf(s.alive[h], ty));
    if !Held(w, h) && !InTable(w, h) {
      CollectKeeps(w, h);
    }
  }

  /** Half way through `remove_self` the handler still lives: it is held, or its other entry refers to it. */
  lemma FirstRemoval(s: State, h: HandlerId)
    requires Kept(s, {}) && Quiet(s) && h in s.alive && s.alive[h].Peer?
    ensures RemoveOwn(s, h, Connection) == Without(s, s.alive[h].conn)
    ensures Kept(Without(s, s.alive[h].conn), {h})
  {
    Weaken(s, h);
    if !Held(s, h) {
      assert Owns(s, h) && FullyIn(s, h);
      assert EntryOf(Without(s, s.alive[h].conn), s.alive[h].comp, h);
    }
    RemoveOwnKeeps(s, h, Connection);
  }

  lemma NoEntryLeft(s: State, h: HandlerId)
    requires Kept(s, {}) && h in s.alive && s.alive[h].Peer?
    ensures var t := Without(Without(s, s.alive[h].conn), s.alive[h].comp);
            !InTable(t, h) && t.table == s.table - Fds(s.alive[h])
  {
  }

  /** `remove_self` takes both entries away, touches nothing that is gone, and leaves the handler only if someone holds it. */
  lemma RemoveSelfKeeps(s: State, h: HandlerId)
    requires Kept(s, {}) && Quiet(s) && h in s.alive && s.alive[h].Peer?
    ensures var t := RemoveSelf(s, h);
            && Kept(t, {}) && t.held == s.held
            && t.table == s.table - Fds(s.alive[h])
            && t.alive == if Held(s, h) then s.alive else s.alive - {h}
  {
    hide Kept;
    var t := Without(s, s.alive[h].conn);
    FirstRemoval(s, h);
    NoEntryLeft(s, h);
    RemoveOwnKeeps(t, h, Completion);
    if Held(s, h) {
      Strengthen(Without(t, s.alive[h].comp), h);
    }
  }

  /** A handler whose descriptors are not in the table has no entry there. */
  lemma NotInTable(s: State, partial: set<HandlerId>, h: HandlerId)
    requires Kept(s, partial) && h in s.alive && forall ty :: FdOf(s.alive[h], ty) !in s.table
    ensures !InTable(s, h)
  {
  }

  /** `register_self` of a held handler that is not in the table: both entries or none. */
  lemma RegisterSelfKeeps(s: State, h: HandlerId, a: Answer, b: Answer)
    requires Kept(s, {}) && Quiet(s) && h in s.alive && s.alive[h].Peer? && Held(s, h)
    requires forall ty :: FdOf(s.alive[h], ty) !in s.table
    ensures var t := RegisterSelf(s, h, a, b);
            && Kept(t, {}) && t.held == s.held && t.alive == s.alive
            && (if a.nonblock && a.added && b.nonblock && b.added
                then t == WithEntry(WithEntry(s, s.alive[h].conn, Connection, h), s.alive[h].comp, Completion, h)
                else t.table == s.table)
  {
    hide RemoveOwn, Register, Agreement, DistinctNodes, Rooted;
    var conn, comp := s.alive[h].conn, s.alive[h].comp;
    assert FdOf(s.alive[h], Connection) == conn && FdOf(s.alive[h], Completion) == comp;
    Weaken(s, h);
    NotInTable(s, {h}, h);
    RegisterKeeps(s, h, Connection, a);
    if Registers(s, h, Connection, a) {
      assert Owns(s, h);
      var t := WithEntry(s, conn, Connection, h);
      RegisterKeeps(t, h, Completion, b);
      var u := Register(t, h, Completion, b);
      if Registers(t, h, Completion, b) {
        Strengthen(u, h);
      } else {
        UndoRegistration(s, h, u);
      }
    } else {
      Strengthen(Register(s, h, Connection, a), h);
    }
  }

  /** The second registration failed: the first is taken back. */
  lemma UndoRegistration(s: State, h: HandlerId, u: State)
    requires Quiet(s) && h in s.alive && s.alive[h].Peer? && Held(s, h) && !InTable(s, h)
    requires s.alive[h].conn !in s.table
    requires Kept(u, {h}) && u.alive == s.alive && u.held == s.held
    requires u.table == WithEntry(s, s.alive[h].conn, Connection, h).table
    ensures var t := RemoveOwn(u, h, Connection);
            Kept(t, {}) && t.held == s.held && t.alive == s.alive && t.table == s.table
  {
    hide Kept, RemoveOwn;
    RemoveOwnKeeps(u, h, Connection);
    assert u.table - {s.alive[h].conn} == s.table;
    Strengthen(RemoveOwn(u, h, Connection), h);
  }

  // ---------------------------------------------------------------- the loop

  /** The handler and its two entries are in, the kernel watches both, and nothing else has changed. */
  predicate Entered(s: State, t: State, h: HandlerId, conn: Fd, comp: Fd) {
    && t.alive == s.alive[h := Peer(conn, comp)]
    && t.table.Keys == s.table.Keys + {conn, comp} && t.epoll.Keys == s.epoll.Keys + {conn, comp}
    && (forall fd <- s.table :: fd != conn && fd != comp && t.table[fd] == s.table[fd])
    && t.table[conn] == Node(t.epoll[conn], Connection, h)
    && t.table[comp] == Node(t.epoll[comp], Completion, h)
  }

  /** A new handler with both its entries. */
  lemma EntersBoth(s: State, who: Holder, h: HandlerId, conn: Fd, comp: Fd)
    requires Kept(s, {}) && New(s, h, Peer(conn, comp))
    ensures var c := Create(s, who, h, Peer(conn, comp));
            var t := WithEntry(WithEntry(c, conn, Connection, h), comp, Completion, h);
            Entered(s, t, h, conn, comp) && FullyIn(t, h) && InTable(t, h)
  {
    NewToTable(s, h, conn, comp);
    hide Kept, New;
    var c := Create(s, who, h, Peer(conn, comp));
    var t := WithEntry(WithEntry(c, conn, Connection, h), comp, Completion, h);
    assert t.table == s.table[conn := Node(s.nextNode, Connection, h)][comp := Node(s.nextNode + 1, Completion, h)];
    assert t.epoll == s.epoll[conn := s.nextNode][comp := s.nextNode + 1];
    assert EntryOf(t, conn, h) && EntryOf(t, comp, h);
  }

  lemma NewToTable(s: State, h: HandlerId, conn: Fd, comp: Fd)
    requires Kept(s, {}) && New(s, h, Peer(conn, comp))
    ensures conn !in s.table && comp !in s.table && conn != comp
  {
    EntriesOpen(s, {});
  }

  lemma AdmitKeeps(s: State, h: HandlerId, conn: Fd, comp: Fd, a: Answer, b: Answer)
    requires Kept(s, {}) && Quiet(s) && New(s, h, Peer(conn, comp))
    ensures var t := AdmitPeer(s, h, conn, comp, a, b);
            && Kept(t, {}) && t.held == s.held
            && if a.nonblock && a.added && b.nonblock && b.added
               then Entered(s, t, h, conn, comp) else t.table == s.table && t.alive == s.alive
  {
    hide Kept, RegisterSelf;
    var c := Create(s, Local, h, Peer(conn, comp));
    CreateKeeps(s, Local, h, Peer(conn, comp));
    RegisterSelfKeeps(c, h, a, b);
    var r := RegisterSelf(c, h, a, b);
    Weaken(r, h);
    UnholdKeeps(r, Local, h);
    var u := r.(held := r.held - {Pointer(Local, h)});
    assert u.held == s.held;
    if a.nonblock && a.added && b.nonblock && b.added {
      EntersBoth(s, Local, h, conn, comp);
      assert FullyIn(u, h) && InTable(u, h);
      Strengthen(u, h);
    } else {
      NoEntryOfNew(s, h);
      CollectKeeps(u, h);
      assert u.alive - {h} == s.alive;
    }
  }

  lemma NoEntryOfNew(s: State, h: HandlerId)
    requires Kept(s, {}) && h !in s.alive
    ensures !InTable(s, h)
  {
  }

  lemma DispatchKeeps(s: State, fd: Fd, act: Action)
    requires Kept(s, {}) && Quiet(s) && Allowed(s, Wake(fd, act))
    ensures Kept(Dispatch(s, fd, act), {}) && Dispatch(s, fd, act).held == s.held
  {
    if fd in s.epoll {
      match (s.table[fd].ty, act)
      case (Accept, Admit(h, conn, comp, a, b)) => AdmitKeeps(s, h, conn, comp, a, b);
      case (Connection, Closed) => RemoveSelfKeeps(s, s.table[fd].handler);
      case _ =>
    }
  }

  lemma LetGoKeeps(s: State, h: HandlerId)
    requires Kept(s, {}) && Quiet(s)
    ensures Kept(Step(s, LetGo(h)), {}) && Quiet(Step(s, LetGo(h)))
  {
    if Pointer(Main, h) in s.held {
      var u := s.(held := s.held - {Pointer(Main, h)});
      assert Pointer(Main, h).target in s.alive;
      Weaken(s, h);
      UnholdKeeps(s, Main, h);
      if InTable(u, h) {
        assert FullyIn(u, h);
        Strengthen(u, h);
      } else if Held(u, h) {
        Strengthen(u, h);
      } else {
        CollectKeeps(u, h);
      }
    }
  }

  lemma OpenAcceptorKeeps(s: State, h: HandlerId, fd: Fd, a: Answer)
    requires Kept(s, {}) && Quiet(s) && New(s, h, Acceptor(fd))
    ensures var t := Step(s, OpenAcceptor(h, fd, a));
            Kept(t, {}) && Quiet(t)
  {
    var c := Create(s, Main, h, Acceptor(fd));
    CreateKeeps(s, Main, h, Acceptor(fd));
    assert FdOf(c.alive[h], Accept) == fd;
    Weaken(c, h);
    NotInTable(c, {h}, h);
    RegisterKeeps(c, h, Accept, a);
    Strengthen(Register(c, h, Accept, a), h);
  }

  lemma StepKeeps(s: State, e: Event)
    requires Kept(s, {}) && Quiet(s) && Allowed(s, e)
    ensures Kept(Step(s, e), {}) && Quiet(Step(s, e))
  {
    match e
    case Wake(fd, act) => DispatchKeeps(s, fd, act);
    case OpenAcceptor(h, fd, a) => OpenAcceptorKeeps(s, h, fd, a);
    case OpenPeer(h, conn, comp, a, b) =>
      CreateKeeps(s, Main, h, Peer(conn, comp));
      RegisterSelfKeeps(Create(s, Main, h, Peer(conn, comp)), h, a, b);
    case LetGo(h) => LetGoKeeps(s, h);
  }

  lemma {:induction false} RunKeeps(s: State, es: seq<Event>)
    requires Kept(s, {}) && Quiet(s) && AllowedAlong(s, es)
    ensures Kept(Run(s, es), {}) && Quiet(Run(s, es))
    decreases |es|
  {
    if es == [] {
    } else {
      StepKeeps(s, es[0]);
      RunKeeps(Step(s, es[0]), es[1..]);
    }
  }

  // ---------------------------------------------------------------- main results

  /**
   At every wait of the loop, whatever the handlers registered and removed before: the kernel watches
   exactly the table's descriptors, each through a pointer to the node that stands there; the node's
   handler lives and has that descriptor for that type; a handler lives exactly while an entry or a
   pointer refers to it, and its descriptors are open exactly as long; and nothing was touched after
   its end.
   */
  lemma LoopAgrees(es: seq<Event>)
    requires AllowedAlong(Start, es)
    ensures var s := Run(Start, es);
            && !s.fault
            && Agreement(s)
            && (forall fd <- s.table :: s.table[fd].handler in s.alive
                                        && FdOf(s.alive[s.table[fd].handler], s.table[fd].ty) == fd)
            && (forall h: HandlerId :: h in s.alive <==> Held(s, h) || InTable(s, h))
            && (forall fd: Fd :: fd in s.open <==> exists h <- s.alive :: fd in Fds(s.alive[h]))
  {
    RunKeeps(Start, es);
    var s := Run(Start, es);
    forall h: HandlerId
      ensures h in s.alive <==> Held(s, h) || InTable(s, h)
    {
      LivesWhileReferenced(s, h);
    }
    forall fd: Fd
      ensures fd in s.open <==> exists h <- s.alive :: fd in Fds(s.alive[h])
    {
      OpenWhileAlive(s, fd);
    }
  }

  lemma OpenWhileAlive(s: State, fd: Fd)
    requires Kept(s, {})
    ensures fd in s.open <==> exists h <- s.alive :: fd in Fds(s.alive[h])
  {
    if h :| h in s.alive && fd in Fds(s.alive[h]) {
      assert Owns(s, h);
    }
  }

  lemma LivesWhileReferenced(s: State, h: HandlerId)
    requires Kept(s, {})
    ensures h in s.alive <==> Held(s, h) || InTable(s, h)
  {
  }

  lemma KeptAgrees(s: State, partial: set<HandlerId>)
    requires Kept(s, partial)
    ensures !s.fault && Agreement(s)
  {
  }

  /** The same table means the same epoll set. */
  lemma SameKernel(s: State, t: State)
    requires Agreement(s) && Agreement(t) && t.table == s.table
    ensures t.epoll == s.epoll
  {
    assert forall fd <- s.epoll :: s.epoll[fd] == s.table[fd].id == t.epoll[fd];
  }

  /**
   Over every run, a connection request at the acceptor: the new handler comes to live with both its
   entries, watched by the kernel, exactly when both descriptors could be registered; otherwise table
   and handlers are as before.
   */
  lemma AdmitsIff(es: seq<Event>, fd: Fd, h: HandlerId, conn: Fd, comp: Fd, a: Answer, b: Answer)
    requires AllowedAlong(Start, es)
    requires var s := Run(Start, es); fd in s.table && s.table[fd].ty == Accept && New(s, h, Peer(conn, comp))
    ensures var s := Run(Start, es);
            var t := Step(s, Wake(fd, Admit(h, conn, comp, a, b)));
            && !t.fault
            && if a.nonblock && a.added && b.nonblock && b.added then Entered(s, t, h, conn, comp)
               else t.table == s.table && t.alive == s.alive && t.epoll == s.epoll
  {
    hide AdmitPeer, Rooted, DistinctNodes, OwnFds, New, Entered;
    StartKept();
    RunKeeps(Start, es);
    var s := Run(Start, es);
    AdmitKeeps(s, h, conn, comp, a, b);
    var t := AdmitPeer(s, h, conn, comp, a, b);
    assert Step(s, Wake(fd, Admit(h, conn, comp, a, b))) == t;
    if t.table == s.table {
      SameKernel(s, t);
    }
  }

  /** The same for a connection the main program opens, which lives on without entries as long as it is held. */
  lemma OpensIff(es: seq<Event>, h: HandlerId, conn: Fd, comp: Fd, a: Answer, b: Answer)
    requires AllowedAlong(Start, es) && New(Run(Start, es), h, Peer(conn, comp))
    ensures var s := Run(Start, es);
            var t := Step(s, OpenPeer(h, conn, comp, a, b));
            && !t.fault && Pointer(Main, h) in t.held
            && if a.nonblock && a.added && b.nonblock && b.added then Entered(s, t, h, conn, comp)
               else t.table == s.table && t.alive == s.alive[h := Peer(conn, comp)] && t.epoll == s.epoll
  {
    hide RegisterSelf, Kept, Entered, New, Agreement;
    StartKept();
    RunKeeps(Start, es);
    var s := Run(Start, es);
    CreateKeeps(s, Main, h, Peer(conn, comp));
    RegisterSelfKeeps(Create(s, Main, h, Peer(conn, comp)), h, a, b);
    EntersBoth(s, Main, h, conn, comp);
    var t := Step(s, OpenPeer(h, conn, comp, a, b));
    KeptAgrees(s, {});
    KeptAgrees(t, {});
    if t.table == s.table {
      SameKernel(s, t);
    }
  }

  /** The same for the acceptor. */
  lemma ListensIff(es: seq<Event>, h: HandlerId, fd: Fd, a: Answer)
    requires AllowedAlong(Start, es) && New(Run(Start, es), h, Acceptor(fd))
    ensures var s := Run(Start, es);
            var t := Step(s, OpenAcceptor(h, fd, a));
            && !t.fault && Pointer(Main, h) in t.held && t.alive == s.alive[h := Acceptor(fd)]
            && if a.nonblock && a.added
               then fd in t.epoll && fd !in s.table && t.table == s.table[fd := Node(t.epoll[fd], Accept, h)]
               else t.table == s.table && t.epoll == s.epoll
  {
    hide Register, Kept, Agreement, Registers;
    StartKept();
    RunKeeps(Start, es);
    var s := Run(Start, es);
    var c := Create(s, Main, h, Acceptor(fd));
    CreateKeeps(s, Main, h, Acceptor(fd));
    assert FdOf(Acceptor(fd), Accept) == fd;
    Weaken(c, h);
    RegisterKeeps(c, h, Accept, a);
    var t := Step(s, OpenAcceptor(h, fd, a));
    KeptAgrees(s, {});
    KeptAgrees(t, {h});
    if t.table == s.table {
      SameKernel(s, t);
    }
  }

  /** A close event ends exactly the handler it was for, unless the main program holds it, and only its entries. */
  lemma CloseEndsHandler(es: seq<Event>, fd: Fd)
    requires AllowedAlong(Start, es)
    requires var s := Run(Start, es); fd in s.epoll && fd in s.table && s.table[fd].ty == Connection
    ensures var s := Run(Start, es);
            var h := s.table[fd].handler;
            var t := Dispatch(s, fd, Closed);
            && h in s.alive && !t.fault && Agreement(t)
            && t.table == s.table - Fds(s.alive[h])
            && t.alive == if Held(s, h) then s.alive else s.alive - {h}
  {
    RunKeeps(Start, es);
    var s := Run(Start, es);
    RemoveSelfKeeps(s, s.table[fd].handler);
  }

  /** Over every run, any other wake-up leaves table, kernel and handlers as they are. */
  lemma OthersLeave(es: seq<Event>, fd: Fd, act: Action)
    requires AllowedAlong(Start, es)
    requires var s := Run(Start, es);
             fd in s.table && !(s.table[fd].ty == Accept && act.Admit?) && !(s.table[fd].ty == Connection && act.Closed?)
    ensures Step(Run(Start, es), Wake(fd, act)) == Run(Start, es)
  {
    StartKept();
    RunKeeps(Start, es);
  }

  /** Letting go of a handler ends it exactly when nothing else refers to it, and takes no entry away. */
  lemma LetsGo(es: seq<Event>, h: HandlerId)
    requires AllowedAlong(Start, es) && Pointer(Main, h) in Run(Start, es).held
    ensures var s := Run(Start, es);
            var t := Step(s, LetGo(h));
            && t.table == s.table && t.held == s.held - {Pointer(Main, h)}
            && t.alive == if InTable(s, h) || Held(t, h) then s.alive else s.alive - {h}
  {
    hide Kept;
    StartKept();
    RunKeeps(Start, es);
    PointerLives(Run(Start, es), Main, h);
    hide Run;
    LetGoEffect(Run(Start, es), h);
  }

  lemma LetGoEffect(s: State, h: HandlerId)
    requires h in s.alive && Pointer(Main, h) in s.held
    ensures var t := Step(s, LetGo(h));
            && t.table == s.table && t.held == s.held - {Pointer(Main, h)}
            && t.alive == if InTable(s, h) || Held(t, h) then s.alive else s.alive - {h}
  {
    assert InTable(s.(held := s.held - {Pointer(Main, h)}), h) == InTable(s, h);
  }

  lemma PointerLives(s: State, who: Holder, h: HandlerId)
    requires Kept(s, {}) && Pointer(who, h) in s.held
    ensures h in s.alive
  {
    assert Pointer(who, h).target in s.alive;
  }

  /** The event is a close event for this handler, through its own connection descriptor. */
  predicate Closes(s: State, e: Event, h: HandlerId) {
    && e.Wake? && e.act.Closed? && e.fd in s.table
    && s.table[e.fd].ty == Connection && s.table[e.fd].handler == h
  }

  lemma WakeEnds(s: State, fd: Fd, act: Action, h: HandlerId)
    requires Kept(s, {}) && Quiet(s) && Allowed(s, Wake(fd, act)) && h in s.alive && h !in Dispatch(s, fd, act).alive
    ensures Closes(s, Wake(fd, act), h)
  {
    if fd in s.epoll {
      match (s.table[fd].ty, act)
      case (Accept, Admit(g, conn, comp, a, b)) => AdmitKeeps(s, g, conn, comp, a, b);
      case (Connection, Closed) => RemoveSelfKeeps(s, s.table[fd].handler);
      case _ =>
    }
  }

  /** Handlers stay what they are while they live. */
  lemma SameHandler(s: State, e: Event, h: HandlerId)
    requires Kept(s, {}) && Quiet(s) && Allowed(s, e) && h in s.alive && h in Step(s, e).alive
    ensures Step(s, e).alive[h] == s.alive[h]
  {
    hide Kept;
    match e
    case Wake(fd, act) => WakeSame(s, fd, act, h);
    case OpenAcceptor(g, fd, a) => OpenAcceptorLives(s, g, fd, a);
    case OpenPeer(g, conn, comp, a, b) => OpenPeerLives(s, g, conn, comp, a, b);
    case LetGo(g) =>
  }

  lemma WakeSame(s: State, fd: Fd, act: Action, h: HandlerId)
    requires Kept(s, {}) && Quiet(s) && Allowed(s, Wake(fd, act)) && h in s.alive && h in Dispatch(s, fd, act).alive
    ensures Dispatch(s, fd, act).alive[h] == s.alive[h]
  {
    KeptAgrees(s, {});
    if fd in s.epoll {
      EntryLives(s, fd);
      hide Kept, RemoveSelf, AdmitPeer;
      match (s.table[fd].ty, act)
      case (Accept, Admit(g, conn, comp, a, b)) => AdmitLives(s, g, conn, comp, a, b);
      case (Connection, Closed) => CloseLives(s, s.table[fd].handler);
      case _ =>
    }
  }

  lemma AdmitLives(s: State, g: HandlerId, conn: Fd, comp: Fd, a: Answer, b: Answer)
    requires Kept(s, {}) && Quiet(s) && New(s, g, Peer(conn, comp))
    ensures var t := AdmitPeer(s, g, conn, comp, a, b);
            t.alive == s.alive || t.alive == s.alive[g := Peer(conn, comp)]
  {
    hide Kept, AdmitPeer;
    AdmitKeeps(s, g, conn, comp, a, b);
  }

  lemma CloseLives(s: State, h: HandlerId)
    requires Kept(s, {}) && Quiet(s) && h in s.alive && s.alive[h].Peer?
    ensures RemoveSelf(s, h).alive == s.alive || RemoveSelf(s, h).alive == s.alive - {h}
  {
    hide Kept, RemoveSelf;
    RemoveSelfKeeps(s, h);
  }

  lemma EntryLives(s: State, fd: Fd)
    requires Kept(s, {}) && fd in s.table
    ensures s.table[fd].handler in s.alive && (s.alive[s.table[fd].handler].Peer? <==> s.table[fd].ty != Accept)
  {
  }

  lemma OpenAcceptorLives(s: State, g: HandlerId, fd: Fd, a: Answer)
    requires Kept(s, {}) && Quiet(s) && New(s, g, Acceptor(fd))
    ensures Step(s, OpenAcceptor(g, fd, a)).alive == s.alive[g := Acceptor(fd)]
  {
    hide Kept;
    CreateKeeps(s, Main, g, Acceptor(fd));
    var c := Create(s, Main, g, Acceptor(fd));
    Weaken(c, g);
    RegisterKeeps(c, g, Accept, a);
  }

  lemma OpenPeerLives(s: State, g: HandlerId, conn: Fd, comp: Fd, a: Answer, b: Answer)
    requires Kept(s, {}) && Quiet(s) && New(s, g, Peer(conn, comp))
    ensures Step(s, OpenPeer(g, conn, comp, a, b)).alive == s.alive[g := Peer(conn, comp)]
  {
    hide Kept;
    CreateKeeps(s, Main, g, Peer(conn, comp));
    RegisterSelfKeeps(Create(s, Main, g, Peer(conn, comp)), g, a, b);
  }

  /**
   What ends a handler that has outlived its admission: a close event on its own connection, or the main
   program that lets it go.
   */
  lemma EndsOnlyBy(es: seq<Event>, e: Event, h: HandlerId)
    requires AllowedAlong(Start, es) && Allowed(Run(Start, es), e)
    requires h in Run(Start, es).alive && h !in Step(Run(Start, es), e).alive
    ensures e == LetGo(h) || Closes(Run(Start, es), e, h)
  {
    hide Kept;
    RunKeeps(Start, es) by {
      StartKept();
    }
    var s := Run(Start, es);
    match e
    case Wake(fd, act) => WakeEnds(s, fd, act, h);
    case OpenAcceptor(g, fd, a) => OpenAcceptorLives(s, g, fd, a);
    case OpenPeer(g, conn, comp, a, b) => OpenPeerLives(s, g, conn, comp, a, b);
    case LetGo(g) =>
  }

  lemma StartKept()
    ensures Kept(Start, {}) && Quiet(Start)
  {
  }

  /** A descriptor in the table loses its entry while the kernel keeps its pointer, so registration keeps both in agreement exactly when it is not given a descriptor that is in the table. */
  lemma RegisterAgreesIff(s: State, h: HandlerId, ty: EventType, a: Answer)
    requires Kept(s, {}) && h in s.alive && Held(s, h)
    requires ty == Accept <==> s.alive[h].Acceptor?
    ensures Agreement(Register(s, h, ty, a)) <==> !(a.nonblock && FdOf(s.alive[h], ty) in s.table)
    ensures a.nonblock && FdOf(s.alive[h], ty) in s.table ==>
              Register(s, h, ty, a) == s.(table := s.table - {FdOf(s.alive[h], ty)})
  {
    var fd := FdOf(s.alive[h], ty);
    if fd in s.table {
      OwnEntry(s, {}, h, fd);
      if a.nonblock {
        assert Emplace(s, fd, ty, h).table - {fd} == s.table - {fd};
        assert fd in s.epoll && fd !in s.table - {fd};
        assert fd in Register(s, h, ty, a).epoll && fd !in Register(s, h, ty, a).table;
      }
    } else {
      Weaken(s, h);
      RegisterKeeps(s, h, ty, a);
    }
  }
}
