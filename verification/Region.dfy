/**
 The server's memory region: where its block comes from, which registration covers it, and in
 which order both are given back.

 libpmem, the C heap and librpma are seen through an audit of their rules: a block is released
 once, by the call that matches how it was obtained and with the length it was obtained with, and
 never while a registration covers it; a registration covers a live block from end to end.
 */
module Region {
  import opened Bytes

  type Ptr = nat
  type Mr = nat

  datatype Block = Pmem(len: nat) | Heap(len: nat)

  /** The books of the foreign libraries; `Broken` once one of their rules was violated. */
  datatype Audit = Broken | Sound(blocks: map<Ptr, Block>, regs: map<Mr, Ptr>)

  /** What `pmem_map_file` did: nothing, or a mapping of `len` bytes that is or is not persistent memory. */
  datatype MapResult = NoMap | Map(ptr: Ptr, len: nat, persistent: bool)

  function Acquire(a: Audit, p: Ptr, b: Block): Audit {
    if a.Broken? || p in a.blocks then Broken else a.(blocks := a.blocks[p := b])
  }

  function Release(a: Audit, p: Ptr, b: Block): Audit {
    if a.Broken? || p !in a.blocks || a.blocks[p] != b || p in a.regs.Values then Broken
    else a.(blocks := a.blocks - {p})
  }

  function Register(a: Audit, mr: Mr, p: Ptr, len: nat): Audit {
    if a.Broken? || mr in a.regs || p !in a.blocks || a.blocks[p].len != len then Broken
    else a.(regs := a.regs[mr := p])
  }

  function Deregister(a: Audit, mr: Mr): Audit {
    if a.Broken? || mr !in a.regs then Broken else a.(regs := a.regs - {mr})
  }

  /** The rules: one release, by the matching call with the matching length, and not under a registration; one end to each registration. */
  lemma RulesCaught(a: Audit, p: Ptr, b: Block, mr: Mr, len: nat)
    requires a.Sound?
    ensures Release(a, p, b).Sound? <==> p in a.blocks && a.blocks[p] == b && forall m <- a.regs :: a.regs[m] != p
    ensures Release(a, p, b).Sound? ==> Release(Release(a, p, b), p, b) == Broken
    ensures Register(a, mr, p, len).Sound? <==> mr !in a.regs && p in a.blocks && a.blocks[p].len == len
    ensures Deregister(a, mr).Sound? <==> mr in a.regs
    ensures Deregister(a, mr).Sound? ==> Deregister(Deregister(a, mr), mr) == Broken
    ensures Acquire(Broken, p, b) == Release(Broken, p, b) == Register(Broken, mr, p, len) == Deregister(Broken, mr) == Broken
  {
  }

  /** `MemoryManager`'s fields, `data_mr`, and the audit. */
  datatype State = State(data: Option<Ptr>, size: nat, isPmem: bool, mr: Option<Mr>, audit: Audit)

  /** A new handler; `_size` starts without a value and `size` stands for whatever it holds. */
  function Fresh(size: nat): State {
    State(None, size, false, None, Sound(map[], map[]))
  }

  /** The pmem attempt: a mapping that is not persistent or of another length is unmapped again, with the wanted size. */
  function TryPmem(s: State, m: MapResult): State {
    match m
    case NoMap => s.(data := None)
    case Map(p, len, persistent) =>
      var mapped := Acquire(s.audit, p, Pmem(len));
      if !persistent || len != s.size then s.(data := None, audit := Release(mapped, p, Pmem(s.size)))
      else s.(data := Some(p), audit := mapped)
  }

  /** `MemoryManager::init`; the data pointer stays null when `malloc` fails too, and the program throws. */
  function Init(s: State, size: nat, m: MapResult, heap: Option<Ptr>): State {
    var t := TryPmem(s.(size := size), m);
    if t.data.Some? then t.(isPmem := true)
    else
      match heap
      case None => t.(isPmem := false)
      case Some(p) => t.(isPmem := false, data := Some(p), audit := Acquire(t.audit, p, Heap(size)))
  }

  function ReleaseBlock(s: State): State {
    match s.data
    case None => s
    case Some(p) =>
      s.(data := None, audit := Release(s.audit, p, if s.isPmem then Pmem(s.size) else Heap(s.size)))
  }

  function DropRegistration(s: State): State {
    match s.mr
    case None => s
    case Some(mr) => s.(mr := None, audit := Deregister(s.audit, mr))
  }

  /** `rpma_mr_reg` of the block followed by `data_mr.reset`: the new registration exists before the old one ends. */
  function RegisterBlock(s: State, reg: Option<Mr>): State {
    match reg
    case None => s
    case Some(mr) =>
      if s.data.None? then s
      else
        var t := s.(audit := Register(s.audit, mr, s.data.value, s.size));
        DropRegistration(t).(mr := Some(mr))
  }

  /** One thing that happens to a handler's region. */
  datatype Event =
    | Setup(size: nat, mapped: MapResult, heap: Option<Ptr>, reg: Option<Mr>)  // an INIT request
    | Finish                                                                   // a FINISHED request

  function Step(s: State, e: Event): State {
    match e
    case Setup(size, m, heap, reg) =>
      var t := if s.data.None? then Init(s, size, m, heap) else s;
      RegisterBlock(t, reg)
    case Finish => ReleaseBlock(DropRegistration(s))
  }

  /** Members are destroyed in reverse order of declaration: `data_mr`, then `data_manager`. */
  function Destroy(s: State): State {
    ReleaseBlock(DropRegistration(s))
  }

  function Run(s: State, es: seq<Event>): State
    decreases |es|
  {
    if es == [] then s else Run(Step(s, es[0]), es[1..])
  }

  // ---------------------------------------------------------------- the environment's side

  /** Foreign calls hand out addresses and registrations that are not in use. */
  predicate Unused(s: State, e: Event) {
    s.audit.Sound? && e.Setup? ==>
      && (s.data.None? && e.mapped.Map? ==> e.mapped.ptr !in s.audit.blocks)
      && (s.data.None? && e.heap.Some? ==> e.heap.value !in s.audit.blocks)
      && (e.reg.Some? ==> e.reg.value !in s.audit.regs)
  }

  predicate UnusedAlong(s: State, es: seq<Event>)
    decreases |es|
  {
    es != [] ==> Unused(s, es[0]) && UnusedAlong(Step(s, es[0]), es[1..])
  }

  /** A mapping whose length is not the requested one: an existing file of another size. */
  predicate Mismatch(s: State, e: Event) {
    e.Setup? && s.data.None? && e.mapped.Map? && e.mapped.len != e.size
  }

  predicate MismatchAlong(s: State, es: seq<Event>)
    decreases |es|
  {
    es != [] && (Mismatch(s, es[0]) || MismatchAlong(Step(s, es[0]), es[1..]))
  }

  // ---------------------------------------------------------------- what every run keeps

  /**
   The block is absent, or a pmem mapping of exactly `size` bytes flagged pmem, or a heap block of
   `size` bytes flagged otherwise; nothing else is live, and `mr` covers that block or is null.
   */
  predicate Kept(s: State) {
    && s.audit.Sound?
    && s.audit.blocks == (if s.data.None? then map[]
                          else map[s.data.value := if s.isPmem then Pmem(s.size) else Heap(s.size)])
    && s.audit.regs == (if s.mr.None? then map[] else map[s.mr.value := if s.data.None? then 0 else s.data.value])
    && (s.mr.Some? ==> s.data.Some?)
  }

  lemma DropKeeps(s: State)
    requires Kept(s)
    ensures Kept(DropRegistration(s)) && DropRegistration(s).mr.None?
    ensures DropRegistration(s).data == s.data
  {
  }

  lemma ReleaseKeeps(s: State)
    requires Kept(s) && s.mr.None?
    ensures Kept(ReleaseBlock(s)) && ReleaseBlock(s).data.None?
  {
  }

  lemma StepKeepsIff(s: State, e: Event)
    requires Kept(s) && Unused(s, e)
    ensures Kept(Step(s, e)) <==> !Mismatch(s, e)
    ensures Mismatch(s, e) ==> Step(s, e).audit.Broken?
  {
  }

  lemma StaysBroken(s: State, e: Event)
    requires s.audit.Broken?
    ensures Step(s, e).audit.Broken?
  {
  }

  lemma {:induction false} BrokenRun(s: State, es: seq<Event>)
    requires s.audit.Broken?
    ensures Run(s, es).audit.Broken?
    decreases |es|
  {
    if es == [] {
    } else {
      StaysBroken(s, es[0]);
      BrokenRun(Step(s, es[0]), es[1..]);
    }
  }

  lemma {:induction false} RunKeepsIff(s: State, es: seq<Event>)
    requires Kept(s) && UnusedAlong(s, es)
    ensures Kept(Run(s, es)) <==> !MismatchAlong(s, es)
    ensures MismatchAlong(s, es) ==> Run(s, es).audit.Broken?
    decreases |es|
  {
    if es == [] {
    } else {
      StepKeepsIff(s, es[0]);
      if Mismatch(s, es[0]) {
        BrokenRun(Step(s, es[0]), es[1..]);
      } else {
        RunKeepsIff(Step(s, es[0]), es[1..]);
      }
    }
  }

  /**
   Over every run of INIT and FINISHED requests and every outcome of the foreign calls: no library
   rule is broken and destruction leaves nothing behind, exactly when no file of another length was
   mapped on the way.
   */
  lemma EveryBlockReturnedOnceIff(size: nat, es: seq<Event>)
    requires UnusedAlong(Fresh(size), es)
    ensures Destroy(Run(Fresh(size), es)).audit == Sound(map[], map[]) <==> !MismatchAlong(Fresh(size), es)
  {
    var s := Run(Fresh(size), es);
    RunKeepsIff(Fresh(size), es);
    if Kept(s) {
      DropKeeps(s);
      ReleaseKeeps(DropRegistration(s));
    }
  }

  /** An existing four-byte file asked for with eight: it is unmapped with a length it was not mapped with. */
  lemma WrongLengthUnmapped()
    ensures Run(Fresh(0), [Setup(8, Map(1, 4, true), Some(2), Some(3))]).audit == Broken
  {
  }

  /** librpma has the registration. */
  predicate Registered(s: State, mr: Mr) {
    s.audit.Sound? && mr in s.audit.regs
  }

  /** Registering a block once more ends the registration it had. */
  lemma NewRegistrationEndsOld(s: State, e: Event)
    requires Kept(s) && Unused(s, e) && e.Setup? && s.mr.Some? && e.reg.Some?
    ensures Registered(s, s.mr.value)
    ensures !Registered(Step(s, e), s.mr.value) && Registered(Step(s, e), e.reg.value)
  {
    StepKeepsIff(s, e);
    assert Step(s, e).mr == e.reg;
  }

  // ---------------------------------------------------------------- advertised size

  /** The requests since the last FINISHED one, or since the start. */
  function SinceFinish(es: seq<Event>): seq<Event> {
    if es == [] then []
    else if es[|es| - 1].Finish? then []
    else SinceFinish(es[..|es| - 1]) + [es[|es| - 1]]
  }

  /** The foreign calls of a request all succeed, on a file of the requested length if there is one. */
  predicate Succeeds(e: Event) {
    e.Setup? ==> e.heap.Some? && e.reg.Some? && (e.mapped.Map? ==> e.mapped.len == e.size)
  }

  lemma {:induction false} RunSnoc(s: State, es: seq<Event>, e: Event)
    ensures Run(s, es + [e]) == Step(Run(s, es), e)
    decreases |es|
  {
    if es == [] {
      assert [e][1..] == [];
    } else {
      assert (es + [e])[1..] == es[1..] + [e];
      RunSnoc(Step(s, es[0]), es[1..], e);
    }
  }

  /**
   The region has the size the first INIT since the last FINISHED asked for, is pmem exactly when
   that request mapped persistent memory, and is registered; without such an INIT there is none.
   */
  lemma {:induction false} FirstRequestDecides(size: nat, es: seq<Event>)
    requires forall e <- es :: Succeeds(e)
    ensures var s := Run(Fresh(size), es);
            var open := SinceFinish(es);
            if open == [] then s.data.None? && s.mr.None?
            else
              && s.data.Some? && s.mr.Some? && open[0].Setup?
              && s.size == open[0].size
              && s.isPmem == (open[0].mapped.Map? && open[0].mapped.persistent)
  {
    if es == [] {
    } else {
      var front, e := es[..|es| - 1], es[|es| - 1];
      assert es == front + [e] && e in es;
      RunSnoc(Fresh(size), front, e);
      FirstRequestDecides(size, front);
    }
  }
}
