/**
 `RpmaConn`, which disconnects and deletes a connection, and the order in which a handler's
 members are destroyed.
 */
module Connection {
  import opened Bytes

  type Conn = nat

  /** A call into librpma on a connection; `None` is the null pointer. */
  datatype Call = Disconnect(on: Option<Conn>) | Delete(conn: Conn)

  datatype State = State(conn: Option<Conn>, disconnected: bool, calls: seq<Call>)

  const Unset: State := State(None, true, [])

  /** What the owner does: hand a connection over, or disconnect (after an error event or on request). */
  datatype Op = Reset(conn: Conn) | Break

  function Step(s: State, op: Op): State {
    match op
    case Reset(c) => s.(conn := Some(c), disconnected := false)
    case Break => s.(disconnected := true, calls := s.calls + [Disconnect(s.conn)])
  }

  function Run(s: State, ops: seq<Op>): State {
    if ops == [] then s else Step(Run(s, ops[..|ops| - 1]), ops[|ops| - 1])
  }

  /** The destructor. */
  function Destroy(s: State): State {
    match s.conn
    case None => s
    case Some(c) =>
      var more := (if s.disconnected then [] else [Disconnect(s.conn)]) + [Delete(c)];
      State(None, s.disconnected, s.calls + more)
  }

  class RpmaConn {
    var conn: Option<Conn>
    var disconnected: bool
    ghost var calls: seq<Call>

    ghost function Now(): State
      reads this
    {
      State(conn, disconnected, calls)
    }

    constructor ()
      ensures Now() == Unset
    {
      conn, disconnected, calls := None, true, [];
    }

    method Reset(c: Conn)
      modifies this
      ensures Now() == Step(old(Now()), Op.Reset(c))
    {
      conn := Some(c);
      disconnected := false;
    }

    method Break()
      modifies this
      ensures Now() == Step(old(Now()), Op.Break)
    {
      disconnected := true;
      calls := calls + [Disconnect(conn)];
    }

    method Dispose()
      modifies this
      ensures Now() == Destroy(old(Now()))
    {
      if conn.None? {
        return;
      }
      if !disconnected {
        calls := calls + [Disconnect(conn)];
      }
      calls := calls + [Delete(conn.value)];
      conn := None;
    }
  }

  // ---------------------------------------------------------------- every run

  /** The connections handed over, in order. */
  function Given(ops: seq<Op>): seq<Conn> {
    if ops == [] then []
    else
      var front := Given(ops[..|ops| - 1]);
      match ops[|ops| - 1]
      case Reset(c) => front + [c]
      case Break => front
  }

  /** The connections deleted, in order. */
  function Deleted(calls: seq<Call>): seq<Conn> {
    if calls == [] then []
    else
      var front := Deleted(calls[..|calls| - 1]);
      match calls[|calls| - 1]
      case Delete(c) => front + [c]
      case Disconnect(_) => front
  }

  lemma DeletedSnoc(calls: seq<Call>, c: Call)
    ensures Deleted(calls + [c]) == Deleted(calls) + (if c.Delete? then [c.conn] else [])
  {
  }

  /** Before destruction nothing is deleted, the last connection handed over is held, and a set flag means it was disconnected. */
  lemma {:induction false} HeldUntilDestroyed(ops: seq<Op>)
    ensures var s := Run(Unset, ops);
            && Deleted(s.calls) == []
            && s.conn == (if Given(ops) == [] then None else Some(Given(ops)[|Given(ops)| - 1]))
            && (s.conn.Some? && s.disconnected ==> Disconnect(s.conn) in s.calls)
            && (s.conn.None? ==> s.disconnected && forall c <- s.calls :: c == Disconnect(None))
  {
    if ops == [] {
    } else {
      var s := Run(Unset, ops[..|ops| - 1]);
      HeldUntilDestroyed(ops[..|ops| - 1]);
      DeletedSnoc(s.calls, Disconnect(s.conn));
    }
  }

  /**
   Over every sequence of hand-overs and disconnects: the last connection is deleted, once, as the
   very last call and after a disconnect of it; no other is deleted; a connection that was never
   set is neither deleted nor disconnected by anyone but an explicit caller, who passes null.
   */
  lemma TeardownOnce(ops: seq<Op>)
    ensures var calls := Destroy(Run(Unset, ops)).calls;
            if Given(ops) == [] then Deleted(calls) == [] && forall c <- calls :: c == Disconnect(None)
            else
              var last := Given(ops)[|Given(ops)| - 1];
              && Deleted(calls) == [last]
              && calls[|calls| - 1] == Delete(last)
              && Disconnect(Some(last)) in calls
  {
    var s := Run(Unset, ops);
    HeldUntilDestroyed(ops);
    if s.conn.Some? {
      var c := s.conn.value;
      var calls := if s.disconnected then s.calls else s.calls + [Disconnect(s.conn)];
      if !s.disconnected {
        DeletedSnoc(s.calls, Disconnect(s.conn));
        assert Disconnect(s.conn) in calls;
      }
      DeletedSnoc(calls, Delete(c));
      assert Destroy(s).calls == calls + [Delete(c)];
    }
  }

  function BreaksIn(ops: seq<Op>): nat {
    |set i: nat | i < |ops| && ops[i] == Break|
  }

  lemma BreaksSnoc(ops: seq<Op>, op: Op)
    ensures BreaksIn(ops + [op]) == BreaksIn(ops) + if op == Break then 1 else 0
  {
    var before, after := set i: nat | i < |ops| && ops[i] == Break, set i: nat | i < |ops + [op]| && (ops + [op])[i] == Break;
    assert after == before + if op == Break then {|ops|} else {};
  }

  /** One disconnect for each time the owner disconnected, and one by the destructor if the last thing was a hand-over. */
  lemma {:induction false} DisconnectsCounted(ops: seq<Op>)
    ensures var s := Run(Unset, ops);
            && |s.calls| == BreaksIn(ops)
            && (s.disconnected <==> ops == [] || ops[|ops| - 1] == Break)
            && |Destroy(s).calls| == |s.calls| + (if s.conn.None? then 0 else if s.disconnected then 1 else 2)
  {
    if ops != [] {
      var front := ops[..|ops| - 1];
      DisconnectsCounted(front);
      BreaksSnoc(front, ops[|ops| - 1]);
      assert ops == front + [ops[|ops| - 1]];
    }
  }

  /** Every connection handed over is deleted exactly once if and only if at most one was handed over. */
  lemma NoneLeakedIff(ops: seq<Op>)
    ensures Deleted(Destroy(Run(Unset, ops)).calls) == Given(ops) <==> |Given(ops)| <= 1
  {
    TeardownOnce(ops);
  }

  // ---------------------------------------------------------------- a handler's connection

  /** What a call that fetches an event or a completion returns; an event may say that the connection was closed or lost. */
  datatype Fetched = Got | Empty | Error

  /** Whatever makes a handler look at its connection, or its owner end it. */
  datatype Incident =
    | ConnectionEvent(event: Fetched, closed: bool)
    | CompletionEvent(wait: Fetched, get: Fetched)
    | Requested

  /** `handle_connection_event`, `handle_completion` and `disconnect`: only errors and the owner's wish disconnect. */
  function Reaction(i: Incident): seq<Op> {
    match i
    case ConnectionEvent(e, _) => if e == Error then [Break] else []
    case CompletionEvent(w, g) => if w == Error || (w == Got && g == Error) then [Break] else []
    case Requested => [Break]
  }

  function Reactions(incidents: seq<Incident>): (ops: seq<Op>)
    ensures forall op <- ops :: op == Break
  {
    if incidents == [] then []
    else Reactions(incidents[..|incidents| - 1]) + Reaction(incidents[|incidents| - 1])
  }

  lemma {:induction false} BreaksLogged(c: Conn, n: nat)
    ensures var s := Run(Unset, [Reset(c)] + seq(n, i => Break));
            s == State(Some(c), n > 0, seq(n, i => Disconnect(Some(c))))
  {
    var ops := [Reset(c)] + seq(n, i => Break);
    if n == 0 {
      assert ops[..|ops| - 1] == [] && ops[|ops| - 1] == Reset(c);
      assert Run(Unset, ops) == Step(Run(Unset, []), Reset(c));
    } else {
      assert ops[..|ops| - 1] == [Reset(c)] + seq(n - 1, i => Break);
      BreaksLogged(c, n - 1);
      assert seq(n - 1, i => Disconnect(Some(c))) + [Disconnect(Some(c))] == seq(n, i => Disconnect(Some(c)));
    }
  }

  /** The owner's wish, an error of the event, of the wait, or of what the wait announced. */
  predicate Breaks(i: Incident) {
    || i == Requested
    || (i.ConnectionEvent? && i.event == Error)
    || (i.CompletionEvent? && i.wait == Error)
    || (i.CompletionEvent? && i.wait == Got && i.get == Error)
  }

  function Breaking(incidents: seq<Incident>): set<nat> {
    set i: nat | i < |incidents| && Breaks(incidents[i])
  }

  lemma BreakingSnoc(incidents: seq<Incident>, i: Incident)
    ensures |Breaking(incidents + [i])| == |Breaking(incidents)| + if Breaks(i) then 1 else 0
  {
    hide Breaks;
    assert Breaking(incidents + [i]) == Breaking(incidents) + if Breaks(i) then {|incidents|} else {};
    assert |incidents| !in Breaking(incidents);
  }

  lemma {:induction false} ReactionsCounted(incidents: seq<Incident>)
    ensures |Reactions(incidents)| == |Breaking(incidents)|
  {
    if incidents == [] {
      assert Breaking(incidents) == {};
    } else {
      hide Breaking;
      var front, last := incidents[..|incidents| - 1], incidents[|incidents| - 1];
      ReactionsCounted(front);
      BreakingSnoc(front, last);
      assert incidents == front + [last];
    }
  }

  /**
   A handler that got its connection: over every sequence of incidents and then destruction, it is
   disconnected once for each error or request, once in all if there was none, and then deleted.
   */
  lemma HandlerTeardown(c: Conn, incidents: seq<Incident>)
    ensures var n := |Breaking(incidents)|;
            Destroy(Run(Unset, [Reset(c)] + Reactions(incidents))).calls
            == seq(if n == 0 then 1 else n, i => Disconnect(Some(c))) + [Delete(c)]
  {
    var ops := Reactions(incidents);
    ReactionsCounted(incidents);
    assert ops == seq(|ops|, i => Break) by {
      assert forall i | 0 <= i < |ops| :: ops[i] in ops;
    }
    BreaksLogged(c, |ops|);
    assert seq(1, i => Disconnect(Some(c))) == [Disconnect(Some(c))];
  }

  // ---------------------------------------------------------------- destruction order

  /** A handler's members, in the order they are declared; base class first. */
  datatype Member =
    | CallbackTable | Peer | Connection | SendBuffer | SendMr | ReceiveBuffer | ReceiveMr
    | DataManager | DataMr

  const Declared: seq<Member> :=
    [CallbackTable, Peer, Connection, SendBuffer, SendMr, ReceiveBuffer, ReceiveMr, DataManager, DataMr]

  /**
   `user` needs `used` until it is destroyed itself.  A connection that is up carries posted sends and
   receives, and they need the registrations of the two buffers; one that has come down does not.
   */
  predicate Needs(up: bool, user: Member, used: Member) {
    match user
    case SendMr => used in {SendBuffer, Peer}
    case ReceiveMr => used in {ReceiveBuffer, Peer}
    case DataMr => used in {DataManager, Peer}
    case Connection => used == Peer || (up && used in {SendMr, ReceiveMr})
    case _ => false
  }

  /** Members are destroyed from the last declared to the first. */
  function DestructionOrder<T>(declared: seq<T>): (order: seq<T>)
    ensures |order| == |declared|
  {
    if declared == [] then [] else [declared[|declared| - 1]] + DestructionOrder(declared[..|declared| - 1])
  }

  lemma {:induction false} DestroyedAt<T>(declared: seq<T>, i: nat)
    requires i < |declared|
    ensures DestructionOrder(declared)[i] == declared[|declared| - 1 - i]
  {
    if i == 0 {
    } else {
      DestroyedAt(declared[..|declared| - 1], i - 1);
    }
  }

  /** Of two places in an order, the later one does not need the earlier one. */
  predicate Independent<T>(order: seq<T>, needs: (T, T) -> bool, first: nat, second: nat)
    requires first < |order| && second < |order|
  {
    !needs(order[second], order[first])
  }

  /** Nothing in `order` comes before something that needs it. */
  ghost predicate Safe<T>(order: seq<T>, needs: (T, T) -> bool) {
    forall i, j | 0 <= i < j < |order| :: Independent(order, needs, i, j)
  }

  /** Nothing is declared before something it needs. */
  ghost predicate DeclaredInOrder<T>(declared: seq<T>, needs: (T, T) -> bool) {
    forall i, j | 0 <= i < j < |declared| :: Independent(declared, needs, j, i)
  }

  /** Reverse destruction is safe if and only if no member is declared before one it needs. */
  lemma ReverseSafeIff<T>(declared: seq<T>, needs: (T, T) -> bool)
    ensures Safe(DestructionOrder(declared), needs) <==> DeclaredInOrder(declared, needs)
  {
    var order, n := DestructionOrder(declared), |declared|;
    forall i, j | 0 <= i < j < n
      ensures Independent(order, needs, i, j) == Independent(declared, needs, n - 1 - i, n - 1 - j)
    {
      DestroyedAt(declared, i);
      DestroyedAt(declared, j);
    }
    if Safe(order, needs) {
      forall i, j | 0 <= i < j < n
        ensures Independent(declared, needs, j, i)
      {
        assert Independent(order, needs, n - 1 - j, n - 1 - i);
      }
    }
  }

  /** Nothing took the connection down: it was not disconnected, and no event says that it was closed or lost. */
  predicate Up(incidents: seq<Incident>) {
    forall i <- incidents :: !Breaks(i) && i != ConnectionEvent(Got, true)
  }

  lemma OrderIs()
    ensures DestructionOrder(Declared) ==
            [DataMr, DataManager, ReceiveMr, ReceiveBuffer, SendMr, SendBuffer, Connection, Peer, CallbackTable]
  {
    forall i | 0 <= i < |Declared|
      ensures DestructionOrder(Declared)[i] == Declared[|Declared| - 1 - i]
    {
      DestroyedAt(Declared, i);
    }
  }

  /**
   The handler's order: registrations end before their memory and everything before the peer; only
   the connection outlives the registrations its posted operations need.  So destruction is safe if
   and only if something took the connection down before; otherwise it is the destructor itself that
   disconnects, when the registrations are gone.
   */
  lemma HandlerTeardownSafeIff(c: Conn, incidents: seq<Incident>)
    ensures Safe(DestructionOrder(Declared), (user, used) => Needs(Up(incidents), user, used)) <==> !Up(incidents)
    ensures DestructionOrder(Declared) ==
            [DataMr, DataManager, ReceiveMr, ReceiveBuffer, SendMr, SendBuffer, Connection, Peer, CallbackTable]
    ensures Up(incidents) ==>
              Destroy(Run(Unset, [Reset(c)] + Reactions(incidents))).calls == [Disconnect(Some(c)), Delete(c)]
  {
    var needs := (user, used) => Needs(Up(incidents), user, used);
    ReverseSafeIff(Declared, needs);
    OrderIs();
    assert Declared[2] == Connection && Declared[4] == SendMr;
    assert Independent(Declared, needs, 4, 2) == !needs(Connection, SendMr);
    if Up(incidents) {
      HandlerTeardown(c, incidents);
      assert Breaking(incidents) == {} by {
        assert forall i: nat | i < |incidents| :: incidents[i] in incidents;
      }
    }
  }
}
