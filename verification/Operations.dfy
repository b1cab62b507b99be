/**
 Who owns an operation object.  A post hands the device a raw pointer to it and, once the device
 has accepted it, the pointer goes into `callback_table`; a successful completion takes it back,
 runs its callback and frees it; a failed one leaves it in the table for the destructor.  A
 callback runs inside the completion and posts operations of its own.

 The server posts from the thread that takes the completions, so that nothing comes between post
 and insert.  A client posts from another thread: there the two are steps of their own.

 Operations are numbered in the order they are created, so that a number names one object for
 good; addresses may be used again once they are free.
 */
module Operations {

  type Addr = nat

  datatype Outcome = Pending | Failed | Succeeded

  /** The history of one operation: what the device said of it, and what was done to it. */
  datatype Op = Op(addr: Addr, callback: bool, accepted: bool, outcome: Outcome, frees: nat, runs: nat)

  /**
   `table` is the program's; `heap` tells which operation lives at an address, `device` which
   addresses the device may still complete, `owed` which operations were accepted by a thread that
   has not inserted their pointers yet.  `fault` marks a pointer used or freed after its object was
   gone.
   */
  datatype State = State(
    table: set<Addr>, heap: map<Addr, nat>, device: set<Addr>, ops: seq<Op>, owed: set<nat>, fault: bool)

  const Start: State := State({}, map[], {}, [], {}, false)

  /** A post: the address the object is made at, whether it has a callback, and whether the device accepts it. */
  datatype Call = Call(addr: Addr, callback: bool, accepted: bool)

  datatype Event =
    | Post(call: Call)                      // and insert, in one
    | Submit(call: Call)                    // another thread's post, up to the insert
    | Insert(op: nat)                       // that thread's insert
    | Success(addr: Addr, body: seq<Call>)  // with the posts its callback makes
    | Failure(addr: Addr)
    | NullContext                           // of a send that was posted without an operation

  function Create(s: State, a: Addr, callback: bool): State {
    s.(heap := s.heap[a := |s.ops|], ops := s.ops + [Op(a, callback, false, Pending, 0, 0)])
  }

  predicate Alive(s: State, a: Addr) {
    a in s.heap && s.heap[a] < |s.ops|
  }

  /** Operation `n` is the live object at its address. */
  predicate Lives(s: State, n: nat)
    requires n < |s.ops|
  {
    s.ops[n].addr in s.heap && s.heap[s.ops[n].addr] == n
  }

  function Note(s: State, a: Addr, op: Op): State
    requires Alive(s, a)
  {
    s.(ops := s.ops[s.heap[a] := op])
  }

  function OpAt(s: State, a: Addr): Op
    requires Alive(s, a)
  {
    s.ops[s.heap[a]]
  }

  function Free(s: State, a: Addr): State {
    if !Alive(s, a) then s.(fault := true)
    else Note(s, a, OpAt(s, a).(frees := OpAt(s, a).frees + 1)).(heap := s.heap - {a})
  }

  /** The device takes the operation, and from now on may complete it. */
  function Accept(s: State, a: Addr): State {
    if !Alive(s, a) then s.(fault := true)
    else Note(s, a, OpAt(s, a).(accepted := true)).(device := s.device + {a})
  }

  function Enter(s: State, a: Addr): State {
    s.(table := s.table + {a})
  }

  /** `send`, `recv`, `write`, `flush` and the receives the server posts: a rejected operation is freed at once. */
  function PostOne(s: State, c: Call): State {
    var t := Create(s, c.addr, c.callback);
    if c.accepted then Enter(Accept(t, c.addr), c.addr) else Free(t, c.addr)
  }

  /** The same up to the insert. */
  function SubmitOne(s: State, c: Call): State {
    var t := Create(s, c.addr, c.callback);
    if c.accepted then Accept(t, c.addr).(owed := s.owed + {|s.ops|}) else Free(t, c.addr)
  }

  /** The insert, of the pointer as the thread remembers it. */
  function InsertOne(s: State, n: nat): State {
    if n < |s.ops| then Enter(s, s.ops[n].addr).(owed := s.owed - {n}) else s
  }

  /** A post is the two steps with nothing in between. */
  lemma PostIsSubmitThenInsert(s: State, c: Call)
    requires |s.ops| !in s.owed
    ensures PostOne(s, c) == if c.accepted then InsertOne(SubmitOne(s, c), |s.ops|) else SubmitOne(s, c)
  {
  }

  function PostAll(s: State, body: seq<Call>): State
    decreases |body|
  {
    if body == [] then s else PostAll(PostOne(s, body[0]), body[1..])
  }

  /** A successful completion up to the callback: the pointer leaves the table. */
  function TakeBack(s: State, a: Addr): State {
    if !Alive(s, a) then s.(fault := true)
    else Note(s, a, OpAt(s, a).(outcome := Succeeded)).(table := s.table - {a}, device := s.device - {a})
  }

  /** `do_callback`, which does nothing for an operation without one. */
  function Callback(s: State, a: Addr, body: seq<Call>): State {
    if !Alive(s, a) then s.(fault := true)
    else if !OpAt(s, a).callback then s
    else PostAll(Note(s, a, OpAt(s, a).(runs := OpAt(s, a).runs + 1)), body)
  }

  function Complete(s: State, a: Addr, body: seq<Call>): State {
    Free(Callback(TakeBack(s, a), a, body), a)
  }

  function Fail(s: State, a: Addr): State {
    if !Alive(s, a) then s.(fault := true)
    else Note(s, a, OpAt(s, a).(outcome := Failed)).(device := s.device - {a})
  }

  function Step(s: State, e: Event): State {
    match e
    case Post(c) => PostOne(s, c)
    case Submit(c) => SubmitOne(s, c)
    case Insert(n) => InsertOne(s, n)
    case Success(a, body) => Complete(s, a, body)
    case Failure(a) => Fail(s, a)
    case NullContext => s
  }

  function Run(s: State, es: seq<Event>): State {
    if es == [] then s else Step(Run(s, es[..|es| - 1]), es[|es| - 1])
  }

  /** The destructor has freed these pointers of the table. */
  function DestroyPart(s: State, done: set<Addr>): (t: State)
    ensures t.table == s.table && |t.ops| == |s.ops|
  {
    s.(heap := s.heap - done,
       ops := seq(|s.ops|, n requires 0 <= n < |s.ops| =>
                if s.ops[n].addr in done && Lives(s, n) then s.ops[n].(frees := s.ops[n].frees + 1) else s.ops[n]),
       fault := s.fault || !(done <= s.heap.Keys))
  }

  /** The destructor frees what the table still holds. */
  function Destroy(s: State): State {
    DestroyPart(s, s.table)
  }

  lemma NothingDestroyed(s: State)
    ensures s.fault || DestroyPart(s, {}) == s
  {
    assert DestroyPart(s, {}).ops == s.ops;
  }

  /** Freeing one more pointer, live or not. */
  lemma DestroyOne(s: State, done: set<Addr>, a: Addr)
    requires a !in done && forall b <- s.heap :: s.heap[b] < |s.ops| && s.ops[s.heap[b]].addr == b
    ensures Free(DestroyPart(s, done), a) == DestroyPart(s, done + {a})
  {
    var t, u := DestroyPart(s, done), DestroyPart(s, done + {a});
    assert Free(t, a).ops == u.ops;
    assert Free(t, a).heap == u.heap;
  }

  /** A fault is what it is meant to be: any use of a pointer whose object is gone raises it, and nothing takes it back. */
  lemma DeadUseFaults(s: State, a: Addr, body: seq<Call>)
    requires !Alive(s, a)
    ensures Free(s, a).fault && Accept(s, a).fault && TakeBack(s, a).fault && Callback(s, a, body).fault && Fail(s, a).fault
    ensures Step(s, Success(a, body)).fault && Step(s, Failure(a)).fault
    ensures a in s.table ==> Destroy(s).fault || a in s.heap
  {
  }

  // ---------------------------------------------------------------- the environment's side

  /** Memory is handed out where nothing lives. */
  predicate FreshAlong(s: State, body: seq<Call>)
    decreases |body|
  {
    body != [] ==> body[0].addr !in s.heap && FreshAlong(PostOne(s, body[0]), body[1..])
  }

  /** New objects are made at free addresses, and the device completes each accepted operation at most once. */
  predicate Allowed(s: State, e: Event) {
    match e
    case Post(c) => c.addr !in s.heap
    case Submit(c) => c.addr !in s.heap
    case Insert(n) => n in s.owed
    case Success(a, body) =>
      && a in s.device
      && var t := TakeBack(s, a);
         (Alive(t, a) && OpAt(t, a).callback ==>
            FreshAlong(Note(t, a, OpAt(t, a).(runs := OpAt(t, a).runs + 1)), body))
    case Failure(a) => a in s.device
    case NullContext => true
  }

  predicate AllowedAlong(s: State, es: seq<Event>) {
    es != [] ==>
      && AllowedAlong(s, es[..|es| - 1])
      && Allowed(Run(s, es[..|es| - 1]), es[|es| - 1])
  }

  // ---------------------------------------------------------------- what every step keeps

  /** The table holds operation `n`. */
  predicate Tracked(s: State, n: nat)
    requires n < |s.ops|
  {
    Lives(s, n) && s.ops[n].addr in s.table
  }

  /** One operation's history is in order; `hand` holds the operation whose callback is running, if any. */
  predicate Orderly(s: State, hand: set<Addr>, n: nat)
    requires n < |s.ops|
  {
    var op := s.ops[n];
    && op.frees == (if Lives(s, n) then 0 else 1)
    && (if Lives(s, n) then op.accepted else op.accepted <==> op.outcome == Succeeded)
    && (Lives(s, n) ==> (op.addr in hand <==> op.outcome == Succeeded))
    && (Lives(s, n) && op.addr !in hand && n !in s.owed ==> op.addr in s.table)
    && op.runs <= 1
    && (op.runs == 1 ==> op.callback && op.outcome == Succeeded)
    && (op.outcome == Succeeded && !Lives(s, n) && op.callback ==> op.runs == 1)
  }

  /** Whatever the order of inserts and completions: objects are in order and the device knows only live ones. */
  predicate Owned(s: State, hand: set<Addr>) {
    && !s.fault
    && hand <= s.heap.Keys && s.device <= s.heap.Keys - hand
    && (forall a <- s.heap :: s.heap[a] < |s.ops| && s.ops[s.heap[a]].addr == a)
    && (forall n <- s.owed :: n < |s.ops|)
    && (forall n | 0 <= n < |s.ops| :: Orderly(s, hand, n))
  }

  /** No insert is behind its operation's completion: the table holds live pointers only, and none that is still owed. */
  predicate Tight(s: State, hand: set<Addr>) {
    && (forall a <- s.table :: a in s.heap && a !in hand && s.heap[a] !in s.owed)
    && (forall n <- s.owed :: n < |s.ops| && Lives(s, n) && s.ops[n].addr !in hand)
  }

  /** A new operation disturbs none before it. */
  lemma CreateKeeps(s: State, hand: set<Addr>, c: Call, t: State)
    requires Owned(s, hand) && c.addr !in s.heap && s.ops <= t.ops && |t.ops| == |s.ops| + 1
    requires t.heap - {c.addr} == s.heap && (c.addr in t.heap ==> t.heap[c.addr] == |s.ops|)
    requires t.table - {c.addr} == s.table - {c.addr} && s.table <= t.table
    requires t.owed - {|s.ops|} == s.owed
    requires Orderly(t, hand, |s.ops|)
    ensures forall n | 0 <= n < |t.ops| :: Orderly(t, hand, n)
  {
    forall n | 0 <= n < |t.ops|
      ensures Orderly(t, hand, n)
    {
      if n < |s.ops| {
        assert Orderly(s, hand, n) && t.ops[n] == s.ops[n];
        assert Lives(t, n) == Lives(s, n);
      }
    }
  }

  lemma PostKeeps(s: State, hand: set<Addr>, c: Call)
    requires Owned(s, hand) && c.addr !in s.heap
    ensures Owned(PostOne(s, c), hand)
    ensures Tight(s, hand) ==> Tight(PostOne(s, c), hand)
  {
    var t := PostOne(s, c);
    assert |s.ops| !in s.owed;
    CreateKeeps(s, hand, c, t);
  }

  lemma SubmitKeeps(s: State, hand: set<Addr>, c: Call)
    requires Owned(s, hand) && c.addr !in s.heap
    ensures Owned(SubmitOne(s, c), hand)
    ensures Tight(s, hand) ==> Tight(SubmitOne(s, c), hand)
  {
    var t := SubmitOne(s, c);
    assert |s.ops| !in s.owed;
    CreateKeeps(s, hand, c, t);
  }

  lemma InsertKeeps(s: State, n: nat)
    requires Owned(s, {}) && n in s.owed
    ensures Owned(InsertOne(s, n), {})
    ensures Tight(s, {}) ==> Tight(InsertOne(s, n), {})
  {
    var t := InsertOne(s, n);
    forall m | 0 <= m < |t.ops|
      ensures Orderly(t, {}, m)
    {
      assert Orderly(s, {}, m);
    }
  }

  /** The operation in hand is out of reach of the posts its callback makes. */
  predicate SameInHand(s: State, t: State, hand: set<Addr>) {
    forall a <- hand :: Alive(s, a) ==> Alive(t, a) && OpAt(t, a) == OpAt(s, a)
  }

  lemma {:induction false} PostAllKeeps(s: State, hand: set<Addr>, body: seq<Call>)
    requires Owned(s, hand) && FreshAlong(s, body)
    ensures Owned(PostAll(s, body), hand)
    ensures Tight(s, hand) ==> Tight(PostAll(s, body), hand)
    ensures SameInHand(s, PostAll(s, body), hand)
    decreases |body|
  {
    if body == [] {
    } else {
      var t := PostOne(s, body[0]);
      PostKeeps(s, hand, body[0]);
      assert SameInHand(s, t, hand);
      PostAllKeeps(t, hand, body[1..]);
    }
  }

  lemma TakeBackKeeps(s: State, a: Addr)
    requires Owned(s, {}) && a in s.device
    ensures var t := TakeBack(s, a);
            && Owned(t, {a}) && Alive(t, a) && OpAt(t, a) == OpAt(s, a).(outcome := Succeeded) && OpAt(t, a).runs == 0
            && (Tight(s, {}) && s.heap[a] !in s.owed ==> Tight(t, {a}))
  {
    var t := TakeBack(s, a);
    assert a in s.heap;
    assert Orderly(s, {}, s.heap[a]);
    forall n | 0 <= n < |t.ops|
      ensures Orderly(t, {a}, n)
    {
      assert Orderly(s, {}, n);
    }
  }

  lemma RunOnceKeeps(s: State, a: Addr)
    requires Owned(s, {a}) && Alive(s, a) && OpAt(s, a).callback && OpAt(s, a).runs == 0
    ensures var t := Note(s, a, OpAt(s, a).(runs := 1));
            && Owned(t, {a}) && Alive(t, a) && OpAt(t, a).runs == 1 && OpAt(t, a).callback
            && (Tight(s, {a}) ==> Tight(t, {a}))
  {
    var t := Note(s, a, OpAt(s, a).(runs := 1));
    assert a in s.heap;
    forall n | 0 <= n < |t.ops|
      ensures Orderly(t, {a}, n)
    {
      assert Orderly(s, {a}, n);
    }
  }

  lemma FreeHandKeeps(s: State, a: Addr)
    requires Owned(s, {a}) && Alive(s, a) && (OpAt(s, a).callback ==> OpAt(s, a).runs == 1)
    ensures Owned(Free(s, a), {})
    ensures Tight(s, {a}) ==> Tight(Free(s, a), {})
  {
    var t := Free(s, a);
    forall n | 0 <= n < |t.ops|
      ensures Orderly(t, {}, n)
    {
      assert Orderly(s, {a}, n);
    }
  }

  lemma CallbackKeeps(s: State, a: Addr, body: seq<Call>)
    requires Owned(s, {a}) && Alive(s, a) && OpAt(s, a).runs == 0
    requires OpAt(s, a).callback ==> FreshAlong(Note(s, a, OpAt(s, a).(runs := OpAt(s, a).runs + 1)), body)
    ensures var t := Callback(s, a, body);
            && Owned(t, {a}) && Alive(t, a) && (OpAt(t, a).callback ==> OpAt(t, a).runs == 1)
            && (Tight(s, {a}) ==> Tight(t, {a}))
  {
    hide Owned, Tight;
    if OpAt(s, a).callback {
      RunOnceKeeps(s, a);
      PostAllKeeps(Note(s, a, OpAt(s, a).(runs := 1)), {a}, body);
      assert a in {a};
    }
  }

  lemma CompleteKeeps(s: State, a: Addr, body: seq<Call>)
    requires Owned(s, {}) && Allowed(s, Success(a, body))
    ensures Owned(Complete(s, a, body), {})
    ensures Tight(s, {}) && Timely(s, Success(a, body)) ==> Tight(Complete(s, a, body), {})
  {
    hide Owned, Tight, FreshAlong;
    TakeBackKeeps(s, a);
    CallbackKeeps(TakeBack(s, a), a, body);
    FreeHandKeeps(Callback(TakeBack(s, a), a, body), a);
  }

  lemma FailKeeps(s: State, a: Addr)
    requires Owned(s, {}) && a in s.device
    ensures Owned(Fail(s, a), {})
    ensures Tight(s, {}) ==> Tight(Fail(s, a), {})
  {
    var t := Fail(s, a);
    assert a in s.heap;
    forall n | 0 <= n < |t.ops|
      ensures Orderly(t, {}, n)
    {
      assert Orderly(s, {}, n);
    }
  }

  /** The event is not the success of an operation whose insert is still owed. */
  predicate Timely(s: State, e: Event) {
    e.Success? ==> e.addr in s.heap ==> s.heap[e.addr] !in s.owed
  }

  /** Every insert precedes its operation's success. */
  predicate TimelyAlong(s: State, es: seq<Event>) {
    es != [] ==>
      && TimelyAlong(s, es[..|es| - 1])
      && Timely(Run(s, es[..|es| - 1]), es[|es| - 1])
  }

  lemma StepKeeps(s: State, e: Event)
    requires Owned(s, {}) && Allowed(s, e)
    ensures Owned(Step(s, e), {})
    ensures Tight(s, {}) && Timely(s, e) ==> Tight(Step(s, e), {})
  {
    hide Owned, Tight, PostOne, SubmitOne, InsertOne, Complete, Fail;
    match e
    case Post(c) => PostKeeps(s, {}, c);
    case Submit(c) => SubmitKeeps(s, {}, c);
    case Insert(n) => InsertKeeps(s, n);
    case Success(a, body) => CompleteKeeps(s, a, body);
    case Failure(a) => FailKeeps(s, a);
    case NullContext =>
  }

  lemma {:induction false} RunKeeps(s: State, es: seq<Event>)
    requires Owned(s, {}) && AllowedAlong(s, es)
    ensures Owned(Run(s, es), {})
    ensures Tight(s, {}) && TimelyAlong(s, es) ==> Tight(Run(s, es), {})
  {
    hide Owned, Tight, Step, Allowed, Timely;
    if es == [] {
    } else {
      RunKeeps(s, es[..|es| - 1]);
      StepKeeps(Run(s, es[..|es| - 1]), es[|es| - 1]);
    }
  }

  // ---------------------------------------------------------------- inserts that come too late

  /** The `k`th event inserts the pointer `a` while nothing lives there, and no operation there succeeds afterwards. */
  predicate LateInsert(es: seq<Event>, k: nat, a: Addr) {
    && k < |es| && es[k].Insert?
    && es[k].op < |Run(Start, es[..k]).ops| && Run(Start, es[..k]).ops[es[k].op].addr == a
    && a !in Run(Start, es[..k]).heap
    && forall m | k < m < |es| :: es[m].Success? ==> es[m].addr != a
  }

  ghost predicate Late(es: seq<Event>, a: Addr) {
    exists k: nat :: LateInsert(es, k, a)
  }

  /** A late insert of an earlier run is one of the longer run, unless it now succeeds. */
  lemma LateStays(es: seq<Event>, k: nat, a: Addr)
    requires es != [] && k < |es| - 1
    ensures LateInsert(es, k, a) <==>
            LateInsert(es[..|es| - 1], k, a) && !(es[|es| - 1].Success? && es[|es| - 1].addr == a)
  {
    var front := es[..|es| - 1];
    assert front[..k] == es[..k];
    if LateInsert(front, k, a) && !(es[|es| - 1].Success? && es[|es| - 1].addr == a) {
      forall m | k < m < |es|
        ensures es[m].Success? ==> es[m].addr != a
      {
        assert m < |front| ==> es[m] == front[m];
      }
    }
    if LateInsert(es, k, a) {
      forall m | k < m < |front|
        ensures front[m].Success? ==> front[m].addr != a
      {
        assert front[m] == es[m];
      }
    }
  }

  /** What a step does to table and heap at one address. */
  lemma {:induction false} PostAllAt(s: State, body: seq<Call>, a: Addr)
    requires FreshAlong(s, body)
    ensures var t := PostAll(s, body);
            && (a in t.table <==> a in s.table || (a in t.table && a in t.heap))
            && (a in s.heap ==> a in t.heap)
    decreases |body|
  {
    if body == [] {
    } else {
      PostAllAt(PostOne(s, body[0]), body[1..], a);
    }
  }

  lemma CallbackAt(s: State, b: Addr, body: seq<Call>, a: Addr)
    requires Alive(s, b) && b !in s.table
    requires OpAt(s, b).callback ==> FreshAlong(Note(s, b, OpAt(s, b).(runs := OpAt(s, b).runs + 1)), body)
    ensures var t := Callback(s, b, body);
            && b !in t.table
            && (a in t.table <==> a in s.table || (a in t.table && a in t.heap))
            && (a in s.heap ==> a in t.heap)
  {
    hide FreshAlong, PostAll;
    if OpAt(s, b).callback {
      var v := Note(s, b, OpAt(s, b).(runs := OpAt(s, b).runs + 1));
      PostAllAt(v, body, a);
      NeverEntered(v, body, b);
    }
  }

  lemma CompleteAt(s: State, b: Addr, body: seq<Call>, a: Addr)
    requires Owned(s, {}) && Allowed(s, Success(b, body))
    ensures var t := Complete(s, b, body);
            && (a == b ==> a !in t.table)
            && (a != b ==> (a in t.table <==> a in s.table || (a in t.table && a in t.heap)) && (a in s.heap ==> a in t.heap))
  {
    hide Owned, FreshAlong, Callback;
    TakeBackKeeps(s, b);
    CallbackAt(TakeBack(s, b), b, body, a);
  }

  /** A callback's posts stay away from a live address. */
  lemma {:induction false} NeverEntered(s: State, body: seq<Call>, b: Addr)
    requires FreshAlong(s, body) && b in s.heap && b !in s.table
    ensures b !in PostAll(s, body).table && b in PostAll(s, body).heap
    decreases |body|
  {
    if body == [] {
    } else {
      NeverEntered(PostOne(s, body[0]), body[1..], b);
    }
  }

  /** A pointer in the table is of a live object or was inserted too late, and one inserted too late is in the table. */
  lemma {:induction false} TableAt(es: seq<Event>, a: Addr)
    requires AllowedAlong(Start, es)
    ensures var s := Run(Start, es);
            && (a in s.table && a !in s.heap ==> Late(es, a))
            && (Late(es, a) ==> a in s.table)
  {
    if es == [] {
    } else {
      var front, e := es[..|es| - 1], es[|es| - 1];
      var s := Run(Start, front);
      TableAt(front, a);
      RunKeeps(Start, front);
      LateStep(es, a);
      if e.Success? {
        CompleteAt(s, e.addr, e.body, a);
      }
    }
  }

  lemma LateStep(es: seq<Event>, a: Addr)
    requires es != [] && AllowedAlong(Start, es)
    ensures var front, e := es[..|es| - 1], es[|es| - 1];
            var s := Run(Start, front);
            Late(es, a) <==>
              || (Late(front, a) && !(e.Success? && e.addr == a))
              || (e.Insert? && e.op < |s.ops| && s.ops[e.op].addr == a && a !in s.heap)
  {
    var front, e := es[..|es| - 1], es[|es| - 1];
    var last := |es| - 1;
    assert es[..last] == front;
    if Late(es, a) {
      var k: nat :| LateInsert(es, k, a);
      if k < last {
        LateStays(es, k, a);
      }
    }
    if Late(front, a) && !(e.Success? && e.addr == a) {
      var k: nat :| LateInsert(front, k, a);
      LateStays(es, k, a);
    }
    var s := Run(Start, front);
    if e.Insert? && e.op < |s.ops| && s.ops[e.op].addr == a && a !in s.heap {
      assert LateInsert(es, last, a);
    }
  }

  /**
   The destructor frees a dead pointer if and only if some pointer was inserted when its object was
   gone, no later operation at that address succeeded, and none lives there.
   */
  lemma LateFaultsIff(es: seq<Event>)
    requires AllowedAlong(Start, es)
    ensures Destroy(Run(Start, es)).fault <==> exists a :: Late(es, a) && a !in Run(Start, es).heap
  {
    var s := Run(Start, es);
    RunKeeps(Start, es);
    if Destroy(s).fault {
      var a :| a in s.table && a !in s.heap;
      TableAt(es, a);
    }
    if a :| Late(es, a) && a !in s.heap {
      TableAt(es, a);
    }
  }

  lemma Extend(es: seq<Event>, e: Event)
    requires AllowedAlong(Start, es) && Allowed(Run(Start, es), e)
    ensures AllowedAlong(Start, es + [e]) && Run(Start, es + [e]) == Step(Run(Start, es), e)
  {
    assert (es + [e])[..|es|] == es;
  }

  /** An operation at `a` without a callback, under way and done. */
  function UnderWay(a: Addr): Op {
    Op(a, false, true, Pending, 0, 0)
  }

  function Done(a: Addr): Op {
    Op(a, false, true, Succeeded, 1, 0)
  }

  lemma SucceedsAt(a: Addr, before: seq<Op>, table: set<Addr>, owed: set<nat>)
    ensures var s := State(table, map[a := |before|], {a}, before + [UnderWay(a)], owed, false);
            Allowed(s, Success(a, [])) && Step(s, Success(a, [])) == State(table - {a}, map[], {}, before + [Done(a)], owed, false)
  {
    var s := State(table, map[a := |before|], {a}, before + [UnderWay(a)], owed, false);
    var t := TakeBack(s, a);
    assert t == s.(table := table - {a}, device := {}, ops := before + [UnderWay(a).(outcome := Succeeded)]);
    assert Free(t, a).ops == before + [Done(a)];
  }

  const Overtaken: seq<Event> := [Submit(Call(0, false, true))] + [Success(0, [])] + [Insert(0)]

  const Reused: seq<Event> := Overtaken + [Post(Call(0, false, true))] + [Success(0, [])]

  lemma OvertakenEnds()
    ensures AllowedAlong(Start, Overtaken) && Run(Start, Overtaken) == State({0}, map[], {}, [Done(0)], {}, false)
  {
    hide AllowedAlong, Run, Complete;
    var c := Call(0, false, true);
    NothingYet();
    Extend([], Submit(c));
    assert [] + [Submit(c)] == [Submit(c)];
    assert Run(Start, [Submit(c)]) == State({}, map[0 := 0], {0}, [] + [UnderWay(0)], {0}, false);
    SucceedsAt(0, [], {}, {0});
    Extend([Submit(c)], Success(0, []));
    Extend([Submit(c)] + [Success(0, [])], Insert(0));
  }

  /** An insert behind its operation's success leaves a dead pointer; a later operation at the same address takes it away. */
  lemma ReuseTakesAway()
    ensures AllowedAlong(Start, Overtaken) && Destroy(Run(Start, Overtaken)).fault
    ensures AllowedAlong(Start, Reused) && !Destroy(Run(Start, Reused)).fault
  {
    hide AllowedAlong, Run, Complete;
    OvertakenEnds();
    var c := Call(0, false, true);
    Extend(Overtaken, Post(c));
    assert Run(Start, Overtaken + [Post(c)]) == State({0}, map[0 := 1], {0}, [Done(0)] + [UnderWay(0)], {}, false);
    SucceedsAt(0, [Done(0)], {0}, {});
    Extend(Overtaken + [Post(c)], Success(0, []));
  }

  lemma NothingYet()
    ensures AllowedAlong(Start, []) && Run(Start, []) == Start
  {
  }
}
