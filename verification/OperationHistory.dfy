/**
 What becomes of operations, told from the events alone: which calls were made, which of them
 succeeded or failed, and which inserts are still owed.  The engine's table, heap and device, and what
 it records of each operation, are exactly what the events say.
 */
module OperationHistory {
  import opened Bytes
  import opened Operations

  /** The last call made at an address. */
  function Latest(calls: seq<Call>, a: Addr): (n: Option<nat>)
    ensures n.Some? ==> n.value < |calls| && calls[n.value].addr == a
  {
    if calls == [] then None
    else if calls[|calls| - 1].addr == a then Some(|calls| - 1)
    else Latest(calls[..|calls| - 1], a)
  }

  /** The calls made, in order; a success adds those of its callback, if the operation was posted with one. */
  function Asked(es: seq<Event>): seq<Call> {
    if es == [] then []
    else
      var front := Asked(es[..|es| - 1]);
      match es[|es| - 1]
      case Post(c) => front + [c]
      case Submit(c) => front + [c]
      case Success(a, body) =>
        var n := Latest(front, a);
        if n.Some? && front[n.value].callback then front + body else front
      case _ => front
  }

  /** A success of call `n`'s operation is among the events. */
  predicate Succeeds(es: seq<Event>, n: nat) {
    && es != []
    && var front, e := es[..|es| - 1], es[|es| - 1];
       Succeeds(front, n) || (e.Success? && Latest(Asked(front), e.addr) == Some(n))
  }

  /** A failure of it is. */
  predicate Fails(es: seq<Event>, n: nat) {
    && es != []
    && var front, e := es[..|es| - 1], es[|es| - 1];
       Fails(front, n) || (e.Failure? && Latest(Asked(front), e.addr) == Some(n))
  }

  /** Call `n` was taken by the device and its insert, a step of its own, has not come. */
  predicate Owes(es: seq<Event>, n: nat) {
    && es != []
    && var front, e := es[..|es| - 1], es[|es| - 1];
       match e
       case Submit(c) => Owes(front, n) || (c.accepted && n == |Asked(front)|)
       case Insert(m) => Owes(front, n) && m != n
       case _ => Owes(front, n)
  }

  // ---------------------------------------------------------------- what the engine records

  function CallsOf(s: State): (calls: seq<Call>)
    ensures |calls| == |s.ops|
  {
    seq(|s.ops|, n requires 0 <= n < |s.ops| => Call(s.ops[n].addr, s.ops[n].callback, s.ops[n].accepted))
  }

  /** A live operation is the last one made at its address. */
  predicate Newest(s: State) {
    forall a <- s.heap :: Latest(CallsOf(s), a) == Some(s.heap[a])
  }

  lemma LatestSnoc(calls: seq<Call>, c: Call, a: Addr)
    ensures Latest(calls + [c], a) == if c.addr == a then Some(|calls|) else Latest(calls, a)
  {
    assert (calls + [c])[..|calls|] == calls;
  }

  /** `t` is `s` with more operations, the earlier ones untouched. */
  predicate Extends(s: State, t: State) {
    && |s.ops| <= |t.ops| && t.ops[..|s.ops|] == s.ops
    && (forall n | |s.ops| <= n < |t.ops| :: t.ops[n].outcome == Pending)
  }

  lemma PostAdds(s: State, c: Call, t: State)
    requires c.addr !in s.heap && Newest(s) && (t == PostOne(s, c) || t == SubmitOne(s, c))
    ensures CallsOf(t) == CallsOf(s) + [c] && Newest(t) && Extends(s, t)
  {
    assert CallsOf(t) == CallsOf(s) + [c];
    forall a <- t.heap
      ensures Latest(CallsOf(t), a) == Some(t.heap[a])
    {
      LatestSnoc(CallsOf(s), c, a);
    }
  }

  lemma ExtendsOn(s: State, u: State, t: State)
    requires Extends(s, u) && Extends(u, t)
    ensures Extends(s, t)
  {
    assert t.ops[..|s.ops|] == u.ops[..|s.ops|];
    forall n | |s.ops| <= n < |t.ops|
      ensures t.ops[n].outcome == Pending
    {
      if n < |u.ops| {
        assert t.ops[..|u.ops|][n] == u.ops[n];
      }
    }
  }

  lemma {:induction false} BodyAdds(s: State, body: seq<Call>)
    requires Newest(s) && FreshAlong(s, body)
    ensures var t := PostAll(s, body);
            CallsOf(t) == CallsOf(s) + body && Newest(t) && Extends(s, t) && t.owed == s.owed
    decreases |body|
  {
    if body == [] {
      assert CallsOf(s) + body == CallsOf(s);
    } else {
      var u := PostOne(s, body[0]);
      assert u.owed == s.owed;
      PostAdds(s, body[0], u);
      hide PostOne, Newest, CallsOf, Extends;
      BodyAdds(u, body[1..]);
      ExtendsOn(s, u, PostAll(u, body[1..]));
      assert CallsOf(s) + body == CallsOf(s) + [body[0]] + body[1..];
    }
  }

  /** Changing what is noted of an operation, but not its call, changes no call. */
  lemma NoteKeeps(s: State, a: Addr, op: Op)
    requires Alive(s, a) && op == OpAt(s, a).(outcome := op.outcome, frees := op.frees, runs := op.runs)
    ensures CallsOf(Note(s, a, op)) == CallsOf(s)
    ensures Newest(s) ==> Newest(Note(s, a, op))
  {
  }

  /** The outcomes noted so far stand, and new operations have none. */
  predicate SameOutcomes(s: State, t: State) {
    && |s.ops| <= |t.ops|
    && (forall n | 0 <= n < |s.ops| :: t.ops[n].outcome == s.ops[n].outcome)
    && (forall n | |s.ops| <= n < |t.ops| :: t.ops[n].outcome == Pending)
  }

  lemma CallbackAdds(s: State, a: Addr, body: seq<Call>)
    requires Alive(s, a) && Newest(s)
    requires OpAt(s, a).callback ==> FreshAlong(Note(s, a, OpAt(s, a).(runs := OpAt(s, a).runs + 1)), body)
    ensures var t := Callback(s, a, body);
            && CallsOf(t) == CallsOf(s) + (if OpAt(s, a).callback then body else [])
            && Newest(t) && t.owed == s.owed && SameOutcomes(s, t)
  {
    hide FreshAlong, PostAll, Newest, CallsOf;
    if OpAt(s, a).callback {
      var ran := Note(s, a, OpAt(s, a).(runs := OpAt(s, a).runs + 1));
      NoteKeeps(s, a, OpAt(s, a).(runs := OpAt(s, a).runs + 1));
      BodyAdds(ran, body);
      assert forall n | 0 <= n < |ran.ops| :: PostAll(ran, body).ops[n] == ran.ops[n];
    }
  }

  lemma TakeBackNotes(s: State, a: Addr)
    requires Alive(s, a) && Newest(s)
    ensures var t := TakeBack(s, a);
            && Alive(t, a) && t.heap == s.heap && CallsOf(t) == CallsOf(s) && Newest(t) && t.owed == s.owed
            && OpAt(t, a).callback == OpAt(s, a).callback && |t.ops| == |s.ops|
            && (forall n | 0 <= n < |t.ops| :: t.ops[n].outcome == if n == s.heap[a] then Succeeded else s.ops[n].outcome)
  {
    NoteKeeps(s, a, OpAt(s, a).(outcome := Succeeded));
    assert CallsOf(TakeBack(s, a)) == CallsOf(s);
  }

  /** A success: its operation has succeeded, its callback's calls are made, and no other operation is touched. */
  lemma SuccessAdds(s: State, a: Addr, body: seq<Call>)
    requires Alive(s, a) && Newest(s) && Allowed(s, Success(a, body))
    ensures var t := Complete(s, a, body);
            && CallsOf(t) == CallsOf(s) + (if OpAt(s, a).callback then body else [])
            && Newest(t) && t.owed == s.owed && |s.ops| <= |t.ops|
            && (forall n | 0 <= n < |t.ops| ::
                  t.ops[n].outcome == if n == s.heap[a] then Succeeded
                                      else if n < |s.ops| then s.ops[n].outcome else Pending)
  {
    hide FreshAlong, TakeBack, Callback, Free, Newest, CallsOf;
    TakeBackNotes(s, a);
    CallbackAdds(TakeBack(s, a), a, body);
    HandStays(TakeBack(s, a), a, body);
    FreeKeeps(Callback(TakeBack(s, a), a, body), a);
  }

  lemma {:induction false} BodyStaysAway(s: State, body: seq<Call>, a: Addr)
    requires FreshAlong(s, body) && a in s.heap
    ensures a in PostAll(s, body).heap && PostAll(s, body).heap[a] == s.heap[a]
    decreases |body|
  {
    if body != [] {
      BodyStaysAway(PostOne(s, body[0]), body[1..], a);
    }
  }

  lemma HandStays(s: State, a: Addr, body: seq<Call>)
    requires Alive(s, a)
    requires OpAt(s, a).callback ==> FreshAlong(Note(s, a, OpAt(s, a).(runs := OpAt(s, a).runs + 1)), body)
    ensures a in Callback(s, a, body).heap && Callback(s, a, body).heap[a] == s.heap[a]
  {
    if OpAt(s, a).callback {
      BodyStaysAway(Note(s, a, OpAt(s, a).(runs := OpAt(s, a).runs + 1)), body, a);
    }
  }

  lemma FreeKeeps(s: State, a: Addr)
    requires Alive(s, a) && Newest(s)
    ensures var t := Free(s, a);
            && CallsOf(t) == CallsOf(s) && Newest(t) && t.owed == s.owed && |t.ops| == |s.ops|
            && (forall n | 0 <= n < |t.ops| :: t.ops[n].outcome == s.ops[n].outcome)
  {
    NoteKeeps(s, a, OpAt(s, a).(frees := OpAt(s, a).frees + 1));
    assert CallsOf(Free(s, a)) == CallsOf(s);
  }

  /** What the events say of a call's operation. */
  function OutcomeOf(es: seq<Event>, n: nat): Outcome {
    if Succeeds(es, n) then Succeeded else if Fails(es, n) then Failed else Pending
  }

  ghost predicate Recorded(es: seq<Event>) {
    var s := Run(Start, es);
    && CallsOf(s) == Asked(es) && Newest(s)
    && (forall n | 0 <= n < |s.ops| :: s.ops[n].outcome == OutcomeOf(es, n))
    && (forall n: nat :: n in s.owed <==> Owes(es, n))
  }

  /** Nothing is said of calls that were not made. */
  lemma {:induction false} NotYet(es: seq<Event>, n: nat)
    requires n >= |Asked(es)|
    ensures !Succeeds(es, n) && !Fails(es, n) && !Owes(es, n)
  {
    if es != [] {
      NotYet(es[..|es| - 1], n);
    }
  }

  /** What a further event adds to the history. */
  lemma HistorySnoc(es: seq<Event>, e: Event, n: nat)
    ensures var more := es + [e];
            && Run(Start, more) == Step(Run(Start, es), e)
            && (Succeeds(more, n) <==> Succeeds(es, n) || (e.Success? && Latest(Asked(es), e.addr) == Some(n)))
            && (Fails(more, n) <==> Fails(es, n) || (e.Failure? && Latest(Asked(es), e.addr) == Some(n)))
            && (!e.Submit? && !e.Insert? ==> (Owes(more, n) <==> Owes(es, n)))
            && (e.Submit? ==> (Owes(more, n) <==> Owes(es, n) || (e.call.accepted && n == |Asked(es)|)))
  {
    assert (es + [e])[..|es|] == es;
  }

  lemma AskedSnoc(es: seq<Event>, a: Addr, body: seq<Call>)
    ensures var n := Latest(Asked(es), a);
            Asked(es + [Success(a, body)]) == Asked(es) + if n.Some? && Asked(es)[n.value].callback then body else []
  {
    assert (es + [Success(a, body)])[..|es|] == es;
  }

  lemma SuccessRecorded(es: seq<Event>, a: Addr, body: seq<Call>)
    requires AllowedAlong(Start, es) && Recorded(es) && Allowed(Run(Start, es), Success(a, body))
    ensures Recorded(es + [Success(a, body)])
  {
    hide Succeeds, Fails, Owes, Asked, Run, Complete, Allowed;
    var e := Success(a, body);
    var s, more := Run(Start, es), es + [e];
    AliveAt(es, a, body);
    HistorySnoc(es, e, 0);
    SuccessAdds(s, a, body);
    AskedSnoc(es, a, body);
    assert Latest(Asked(es), a) == Some(s.heap[a]) && CallsOf(s)[s.heap[a]].callback == OpAt(s, a).callback;
    forall n: nat
      ensures n < |Run(Start, more).ops| ==> Run(Start, more).ops[n].outcome == OutcomeOf(more, n)
      ensures n in Run(Start, more).owed <==> Owes(more, n)
    {
      HistorySnoc(es, e, n);
      if n >= |s.ops| {
        NotYet(es, n);
      }
    }
  }

  lemma AliveAt(es: seq<Event>, a: Addr, body: seq<Call>)
    requires AllowedAlong(Start, es) && Allowed(Run(Start, es), Success(a, body))
    ensures Alive(Run(Start, es), a)
  {
    hide Run;
    RunKeeps(Start, es);
  }

  lemma PostRecorded(es: seq<Event>, e: Event)
    requires Recorded(es) && (e.Post? || e.Submit?) && Allowed(Run(Start, es), e)
    ensures Recorded(es + [e])
  {
    var s, more := Run(Start, es), es + [e];
    assert more[..|es|] == es;
    assert Asked(more) == Asked(es) + [e.call];
    hide Run, Asked, Succeeds, Fails, Owes, Newest, Latest;
    PostAdds(s, e.call, Step(s, e));
    HistorySnoc(es, e, 0);
    forall n: nat
      ensures n < |Run(Start, more).ops| ==> Run(Start, more).ops[n].outcome == OutcomeOf(more, n)
      ensures n in Run(Start, more).owed <==> Owes(more, n)
    {
      HistorySnoc(es, e, n);
      if n >= |s.ops| {
        NotYet(es, n);
      } else {
        assert Step(s, e).ops[..|s.ops|][n] == s.ops[n];
      }
    }
  }

  lemma FailNotes(s: State, a: Addr)
    requires Alive(s, a) && Newest(s)
    ensures var t := Fail(s, a);
            && t.heap == s.heap && CallsOf(t) == CallsOf(s) && Newest(t) && t.owed == s.owed && |t.ops| == |s.ops|
            && (forall n | 0 <= n < |t.ops| :: t.ops[n].outcome == if n == s.heap[a] then Failed else s.ops[n].outcome)
  {
    NoteKeeps(s, a, OpAt(s, a).(outcome := Failed));
    assert CallsOf(Fail(s, a)) == CallsOf(s);
  }

  lemma AskedSame(es: seq<Event>, a: Addr)
    ensures Asked(es + [Failure(a)]) == Asked(es)
  {
    assert (es + [Failure(a)])[..|es|] == es;
  }

  lemma FailureRecorded(es: seq<Event>, a: Addr)
    requires AllowedAlong(Start, es) && Recorded(es) && Allowed(Run(Start, es), Failure(a))
    ensures Recorded(es + [Failure(a)])
  {
    hide Succeeds, Fails, Owes, Run, Asked, Fail;
    var s, more := Run(Start, es), es + [Failure(a)];
    RunKeeps(Start, es);
    assert a in s.heap && Orderly(s, {}, s.heap[a]);
    FailNotes(s, a);
    AskedSame(es, a);
    HistorySnoc(es, Failure(a), 0);
    forall n: nat
      ensures n < |s.ops| ==> Run(Start, more).ops[n].outcome == OutcomeOf(more, n)
      ensures n in Run(Start, more).owed <==> Owes(more, n)
    {
      HistorySnoc(es, Failure(a), n);
    }
  }

  lemma OtherRecorded(es: seq<Event>, e: Event)
    requires Recorded(es) && (e.Insert? || e.NullContext?) && Allowed(Run(Start, es), e)
    ensures Recorded(es + [e])
  {
    var s, more := Run(Start, es), es + [e];
    assert more[..|es|] == es;
    assert CallsOf(Step(s, e)) == CallsOf(s);
    if e.Insert? {
      InsertRecorded(es, e.op);
    }
  }

  lemma InsertRecorded(es: seq<Event>, n: nat)
    requires Recorded(es) && Allowed(Run(Start, es), Insert(n))
    ensures n < |Run(Start, es).ops|
  {
    if n >= |Run(Start, es).ops| {
      NotYet(es, n);
    }
  }

  lemma {:induction false} RunRecorded(es: seq<Event>)
    requires AllowedAlong(Start, es)
    ensures Recorded(es)
  {
    if es == [] {
    } else {
      var front, e := es[..|es| - 1], es[|es| - 1];
      assert es == front + [e];
      RunRecorded(front);
      match e
      case Post(_) => PostRecorded(front, e);
      case Submit(_) => PostRecorded(front, e);
      case Success(a, body) => SuccessRecorded(front, a, body);
      case Failure(a) => FailureRecorded(front, a);
      case _ => OtherRecorded(front, e);
    }
  }

  // ---------------------------------------------------------------- main results

  /** Over every run the engine's operations are the calls made, in order, each as it was asked for and with what befell it. */
  lemma OperationsAreCalls(es: seq<Event>)
    requires AllowedAlong(Start, es)
    ensures var s, calls := Run(Start, es), Asked(es);
            && |s.ops| == |calls|
            && (forall n | 0 <= n < |calls| ::
                  && Call(s.ops[n].addr, s.ops[n].callback, s.ops[n].accepted) == calls[n]
                  && s.ops[n].outcome == OutcomeOf(es, n)
                  && (n in s.owed <==> Owes(es, n)))
  {
    RunRecorded(es);
    var s := Run(Start, es);
    assert forall n | 0 <= n < |s.ops| :: CallsOf(s)[n] == Call(s.ops[n].addr, s.ops[n].callback, s.ops[n].accepted);
  }

  /** A callback runs once if its call came with one and a success of it is among the events, and never otherwise. */
  lemma CallbackRunsIff(es: seq<Event>, n: nat)
    requires AllowedAlong(Start, es) && n < |Asked(es)|
    ensures n < |Run(Start, es).ops|
    ensures Run(Start, es).ops[n].runs == if Asked(es)[n].callback && Succeeds(es, n) then 1 else 0
  {
    OperationsAreCalls(es);
    RunKeeps(Start, es);
    assert Orderly(Run(Start, es), {}, n);
  }

  /** An object lives at the address: the last one asked for there was taken by the device and has not succeeded. */
  predicate Living(es: seq<Event>, a: Addr) {
    var n := Latest(Asked(es), a);
    n.Some? && Asked(es)[n.value].accepted && !Succeeds(es, n.value)
  }

  /** Over every run, objects live and the device holds them exactly as long as the events say. */
  lemma LivesIff(es: seq<Event>, a: Addr)
    requires AllowedAlong(Start, es)
    ensures a in Run(Start, es).heap <==> Living(es, a)
    ensures a in Run(Start, es).device <==> Living(es, a) && !Fails(es, Latest(Asked(es), a).value)
  {
    RunRecorded(es);
    RunKeeps(Start, es);
    OperationsAreCalls(es);
    var s := Run(Start, es);
    var n := Latest(Asked(es), a);
    if n.Some? {
      assert Orderly(s, {}, n.value);
      LatestLives(s, n.value);
    }
    DeviceRecorded(es);
  }

  /** If the last operation made at an address does not live, none does. */
  lemma LatestLives(s: State, n: nat)
    requires Owned(s, {}) && Newest(s) && n < |s.ops| && Latest(CallsOf(s), s.ops[n].addr) == Some(n)
    ensures s.ops[n].addr in s.heap <==> Lives(s, n)
  {
  }

  /** The device holds exactly the live operations it has not reported on. */
  lemma {:induction false} DeviceRecorded(es: seq<Event>)
    requires AllowedAlong(Start, es)
    ensures var s := Run(Start, es);
            forall a <- s.heap :: s.heap[a] < |s.ops| && (a in s.device <==> s.ops[s.heap[a]].outcome == Pending)
  {
    if es != [] {
      var front, e := es[..|es| - 1], es[|es| - 1];
      DeviceRecorded(front);
      RunKeeps(Start, front);
      DeviceStep(Run(Start, front), e);
    }
  }

  predicate DeviceHolds(s: State) {
    forall a <- s.heap :: s.heap[a] < |s.ops| && (a in s.device <==> s.ops[s.heap[a]].outcome == Pending)
  }

  lemma {:induction false} BodyHolds(s: State, body: seq<Call>)
    requires DeviceHolds(s) && FreshAlong(s, body) && s.device <= s.heap.Keys
    ensures DeviceHolds(PostAll(s, body))
    decreases |body|
  {
    if body != [] {
      BodyHolds(PostOne(s, body[0]), body[1..]);
    }
  }

  lemma DeviceStep(s: State, e: Event)
    requires Owned(s, {}) && DeviceHolds(s) && Allowed(s, e)
    ensures DeviceHolds(Step(s, e))
  {
    if e.Success? {
      SuccessHolds(s, e.addr, e.body);
    }
  }

  lemma SuccessHolds(s: State, a: Addr, body: seq<Call>)
    requires Owned(s, {}) && DeviceHolds(s) && Allowed(s, Success(a, body))
    ensures DeviceHolds(Complete(s, a, body))
  {
    hide FreshAlong, PostAll;
    TakeBackKeeps(s, a);
    var u := TakeBack(s, a);
    CallbackHolds(u, a, body);
    HandStays(u, a, body);
  }

  lemma CallbackHolds(s: State, a: Addr, body: seq<Call>)
    requires DeviceHolds(s) && Alive(s, a) && s.device <= s.heap.Keys
    requires OpAt(s, a).callback ==> FreshAlong(Note(s, a, OpAt(s, a).(runs := OpAt(s, a).runs + 1)), body)
    ensures DeviceHolds(Callback(s, a, body))
  {
    hide FreshAlong, PostAll;
    if OpAt(s, a).callback {
      BodyHolds(Note(s, a, OpAt(s, a).(runs := OpAt(s, a).runs + 1)), body);
    }
  }

  /**
   Over every run in which inserts precede successes: the table holds exactly the addresses of the live
   operations whose insert is not still to come, and nothing is used after its end.
   */
  lemma TableIsOutstanding(es: seq<Event>, a: Addr)
    requires AllowedAlong(Start, es) && TimelyAlong(Start, es)
    ensures !Run(Start, es).fault
    ensures a in Run(Start, es).table <==> Living(es, a) && !Owes(es, Latest(Asked(es), a).value)
  {
    RunRecorded(es);
    RunKeeps(Start, es);
    LivesIff(es, a);
    var s := Run(Start, es);
    if a in s.heap {
      assert Orderly(s, {}, s.heap[a]);
    }
  }

  /**
   After destruction, with no post under way: nothing lives and every operation ever asked for was freed
   exactly once, in whatever order inserts came; if every insert preceded its operation's success,
   no pointer was used after its end.
   */
  lemma EveryOperationFreedOnce(es: seq<Event>)
    requires AllowedAlong(Start, es) && forall n: nat :: !Owes(es, n)
    ensures var s := Destroy(Run(Start, es));
            && s.heap == map[]
            && |s.ops| == |Asked(es)| && (forall op <- s.ops :: op.frees == 1)
            && (TimelyAlong(Start, es) ==> !s.fault)
  {
    var r := Run(Start, es);
    RunRecorded(es);
    RunKeeps(Start, es);
    var s := Destroy(r);
    forall n | 0 <= n < |s.ops|
      ensures s.ops[n].frees == 1
    {
      assert Orderly(r, {}, n);
    }
    forall a <- r.heap
      ensures a in r.table
    {
      assert Orderly(r, {}, r.heap[a]);
    }
  }

  /** The `k`th event inserts the pointer `a` while nothing lives there, and no operation there succeeds afterwards. */
  predicate LeftDead(es: seq<Event>, k: nat, a: Addr) {
    && k < |es| && es[k].Insert?
    && es[k].op < |Asked(es[..k])| && Asked(es[..k])[es[k].op].addr == a
    && !Living(es[..k], a)
    && forall m | k < m < |es| :: es[m].Success? ==> es[m].addr != a
  }

  lemma {:induction false} AllowedBefore(es: seq<Event>, k: nat)
    requires AllowedAlong(Start, es) && k <= |es|
    ensures AllowedAlong(Start, es[..k])
  {
    if k == |es| {
      assert es[..k] == es;
    } else {
      AllowedBefore(es[..|es| - 1], k);
      assert es[..|es| - 1][..k] == es[..k];
    }
  }

  lemma LateIsLeftDead(es: seq<Event>, k: nat, a: Addr)
    requires AllowedAlong(Start, es) && k < |es|
    ensures LateInsert(es, k, a) <==> LeftDead(es, k, a)
  {
    AllowedBefore(es, k);
    OperationsAreCalls(es[..k]);
    LivesIff(es[..k], a);
  }

  /**
   Over every run the destructor frees a dead pointer if and only if some pointer was inserted when its
   object was gone, no later operation at that address succeeded, and none lives there.
   */
  lemma DeadPointerFreedIff(es: seq<Event>)
    requires AllowedAlong(Start, es)
    ensures Destroy(Run(Start, es)).fault <==> exists k: nat, a :: LeftDead(es, k, a) && !Living(es, a)
  {
    LateFaultsIff(es);
    if Destroy(Run(Start, es)).fault {
      var a :| Late(es, a) && a !in Run(Start, es).heap;
      var k: nat :| LateInsert(es, k, a);
      LateIsLeftDead(es, k, a);
      LivesIff(es, a);
      assert LeftDead(es, k, a) && !Living(es, a);
    }
    if k: nat, a :| LeftDead(es, k, a) && !Living(es, a) {
      LateIsLeftDead(es, k, a);
      LivesIff(es, a);
      assert Late(es, a);
    }
  }
}
