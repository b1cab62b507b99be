/** The operation side of `ConnectionHandler`: posting, completing, and destruction with operations left over. */
module ConnectionHandlers {
  import opened Bytes
  import opened Operations

  /** A completion as the device reports it: its context, and whether it succeeded. */
  datatype Completion = Completion(context: Option<Addr>, success: bool)

  function Reported(cmpl: Completion, body: seq<Call>): Event {
    match cmpl
    case Completion(None, _) => NullContext
    case Completion(Some(a), true) => Success(a, body)
    case Completion(Some(a), false) => Failure(a)
  }

  class ConnectionHandler {
    var callbackTable: set<Addr>
    ghost var heap: map<Addr, nat>
    ghost var device: set<Addr>
    ghost var ops: seq<Op>
    ghost var owed: set<nat>
    ghost var fault: bool

    ghost function Now(): State
      reads this
    {
      State(callbackTable, heap, device, ops, owed, fault)
    }

    ghost method Become(s: State)
      modifies this`heap, this`device, this`ops, this`owed, this`fault
      ensures Now() == s.(table := callbackTable)
    {
      heap, device, ops, owed, fault := s.heap, s.device, s.ops, s.owed, s.fault;
    }

    constructor ()
      ensures Now() == Start
    {
      callbackTable := {};
      heap, device, ops, owed, fault := map[], {}, [], {}, false;
    }

    /** Inserts are owed for operations that were made. */
    ghost predicate Owing()
      reads this
    {
      forall n <- owed :: n < |ops|
    }

    /** The first half of a post: the device gets the pointer; an operation it does not take is freed at once. */
    method Offer(c: Call) returns (ret: int)
      modifies this`heap, this`device, this`ops, this`owed, this`fault
      ensures Now() == SubmitOne(old(Now()), c)
      ensures ret == 0 <==> c.accepted
    {
      Become(SubmitOne(Now(), c));
      ret := if c.accepted then 0 else -1;
    }

    /** The second half: the pointer goes into the table, whatever has become of its object. */
    method Keep(a: Addr, ghost n: nat)
      requires n < |ops| && ops[n].addr == a
      modifies this
      ensures Now() == InsertOne(old(Now()), n)
    {
      callbackTable := callbackTable + {a};
      Become(InsertOne(Now(), n));
    }

    /** `send`, `recv`, `write` and `flush`: the pointer is kept only if the device took the operation. */
    method Issue(c: Call) returns (ret: int)
      requires Owing()
      modifies this
      ensures Owing() && Now() == PostOne(old(Now()), c)
      ensures ret == 0 <==> c.accepted
    {
      PostIsSubmitThenInsert(Now(), c);
      ghost var n := |ops|;
      ret := Offer(c);
      if ret == 0 {
        Keep(c.addr, n);
      }
    }

    /** What a callback does to the engine: its posts, one after the other. */
    method RunBody(body: seq<Call>)
      requires Owing()
      modifies this
      ensures Owing() && Now() == PostAll(old(Now()), body)
    {
      var rest := body;
      while rest != []
        invariant Owing() && PostAll(Now(), rest) == PostAll(old(Now()), body)
        decreases |rest|
      {
        var _ := Issue(rest[0]);
        rest := rest[1..];
      }
    }

    /** A successful completion: the object is taken back, its callback runs, and it is freed last. */
    method Reclaim(a: Addr, hasCallback: bool, body: seq<Call>)
      requires Owing() && Alive(Now(), a) && hasCallback == OpAt(Now(), a).callback
      modifies this
      ensures Now() == Complete(old(Now()), a, body)
    {
      hide PostAll;
      Become(TakeBack(Now(), a));
      callbackTable := callbackTable - {a};
      if hasCallback {
        Become(Note(Now(), a, OpAt(Now(), a).(runs := OpAt(Now(), a).runs + 1)));
        RunBody(body);
      }
      Become(Free(Now(), a));
    }

    /**
     `handle_completion`, after the completion was read.  The pointer must be one the device holds;
     that it is alive is this class's own doing.
     */
    method HandleCompletion(cmpl: Completion, hasCallback: bool, body: seq<Call>)
      requires Owned(Now(), {})
      requires cmpl.context.Some? ==> Allowed(Now(), Reported(cmpl, body))
      requires cmpl.context.Some? && Alive(Now(), cmpl.context.value) ==>
                 hasCallback == OpAt(Now(), cmpl.context.value).callback
      modifies this
      ensures Now() == Step(old(Now()), Reported(cmpl, body))
      ensures Owned(Now(), {})
    {
      if cmpl.context.Some? {
        var a := cmpl.context.value;
        if cmpl.success {
          CompleteKeeps(Now(), a, body);
          Reclaim(a, hasCallback, body);
        } else {
          FailKeeps(Now(), a);
          Become(Fail(Now(), a));
        }
      }
    }

    /** The destructor: frees every pointer the table still holds, dead ones too, in whatever order the set gives them. */
    method Dispose()
      requires Owned(Now(), {})
      modifies this
      ensures Now() == Destroy(old(Now()))
    {
      hide DestroyPart, Free;
      ghost var was := Now();
      assert DestroyPart(was, {}) == was by {
        NothingDestroyed(was);
      }
      assert was.table - was.table == {};
      var left := callbackTable;
      while left != {}
        invariant left <= was.table
        invariant Now() == DestroyPart(was, was.table - left)
        decreases left
      {
        var a :| a in left;
        assert was.table - (left - {a}) == was.table - left + {a};
        DestroyOne(was, was.table - left, a);
        Become(Free(Now(), a));
        left := left - {a};
      }
      assert was.table - {} == was.table;
    }
  }
}
