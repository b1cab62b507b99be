/**
 What the client's writes and flushes make of the server's region.  A completed write copies a range
 of the client's memory, as it then is, to the same offset of the region; a completed persistent
 flush makes a range of the region durable.
 */
module Mirror {
  import opened Bytes
  import H = Handshake

  const MAX_WRITE: nat := 1024 * 1024 * 1024

  /** The client's memory, the region, and what of the region has reached the persistent domain. */
  datatype State = State(source: seq<byte>, image: seq<byte>, durable: seq<byte>, directWrite: bool)

  datatype Event =
    | Store(at: nat, value: byte)                     // the application changes its own memory
    | Write(offset: nat, len: nat)                    // a write completes
    | Flush(offset: nat, len: nat, ty: H.FlushType)     // a flush completes

  predicate Formed(s: State) {
    |s.durable| == |s.image|
  }

  /** `to` with the bytes of `from` in a range both have. */
  function CopyRange(to: seq<byte>, from: seq<byte>, offset: nat, len: nat): (r: seq<byte>)
    requires offset + len <= |to| && offset + len <= |from|
    ensures |r| == |to|
    ensures forall i | 0 <= i < |to| :: r[i] == if offset <= i < offset + len then from[i] else to[i]
  {
    to[..offset] + from[offset..offset + len] + to[offset + len..]
  }

  /** The write reaches byte `i`: it is one the program makes, inside both memories. */
  predicate Writes(s: State, e: Event, i: nat) {
    && e.Write? && e.len <= MAX_WRITE
    && e.offset + e.len <= |s.source| && e.offset + e.len <= |s.image|
    && e.offset <= i < e.offset + e.len
  }

  /** The flush makes byte `i` durable: a persistent one, on a connection that has direct writes to pmem. */
  predicate Persists(s: State, e: Event, i: nat) {
    && e.Flush? && e.ty == H.Persistent && s.directWrite
    && e.offset + e.len <= |s.image|
    && e.offset <= i < e.offset + e.len
  }

  function Step(s: State, e: Event): (t: State)
    requires Formed(s)
    ensures Formed(t) && |t.image| == |s.image| && |t.source| == |s.source| && t.directWrite == s.directWrite
  {
    match e
    case Store(i, b) => if i < |s.source| then s.(source := s.source[i := b]) else s
    case Write(offset, len) =>
      if len <= MAX_WRITE && offset + len <= |s.source| && offset + len <= |s.image|
      then s.(image := CopyRange(s.image, s.source, offset, len)) else s
    case Flush(offset, len, ty) =>
      if ty == H.Persistent && s.directWrite && offset + len <= |s.image|
      then s.(durable := CopyRange(s.durable, s.image, offset, len)) else s
  }

  function Run(s: State, es: seq<Event>): (t: State)
    requires Formed(s)
    ensures Formed(t) && |t.image| == |s.image| && |t.source| == |s.source| && t.directWrite == s.directWrite
  {
    if es == [] then s else Step(Run(s, es[..|es| - 1]), es[|es| - 1])
  }

  /** The number of events before the last one of `es` that reaches byte `i`, if any does. */
  function LastWrite(s: State, es: seq<Event>, i: nat): (k: Option<nat>)
    ensures k.Some? ==> k.value < |es| && Writes(s, es[k.value], i)
    ensures k.Some? ==> forall j | k.value < j < |es| :: !Writes(s, es[j], i)
    ensures k.None? ==> forall j | 0 <= j < |es| :: !Writes(s, es[j], i)
  {
    if es == [] then None
    else if Writes(s, es[|es| - 1], i) then Some(|es| - 1)
    else LastWrite(s, es[..|es| - 1], i)
  }

  function LastPersist(s: State, es: seq<Event>, i: nat): (k: Option<nat>)
    ensures k.Some? ==> k.value < |es| && Persists(s, es[k.value], i)
    ensures k.Some? ==> forall j | k.value < j < |es| :: !Persists(s, es[j], i)
    ensures k.None? ==> forall j | 0 <= j < |es| :: !Persists(s, es[j], i)
  {
    if es == [] then None
    else if Persists(s, es[|es| - 1], i) then Some(|es| - 1)
    else LastPersist(s, es[..|es| - 1], i)
  }

  /** What one event does to a byte of the region and of its durable copy; `s` has the sizes of `t`. */
  lemma StepAt(s: State, t: State, e: Event, i: nat)
    requires Formed(s) && Formed(t) && i < |t.image|
    requires |s.image| == |t.image| && |s.source| == |t.source| && s.directWrite == t.directWrite
    ensures Step(t, e).image[i] == if Writes(s, e, i) then t.source[i] else t.image[i]
    ensures Step(t, e).durable[i] == if Persists(s, e, i) then t.image[i] else t.durable[i]
  {
  }

  /** Each byte of the region is the client's byte at the same offset when the last write reached it, or untouched. */
  lemma {:induction false} ReplicaMirrors(s: State, es: seq<Event>, i: nat)
    requires Formed(s) && i < |s.image|
    ensures Run(s, es).image[i] == match LastWrite(s, es, i)
                                   case None => s.image[i]
                                   case Some(k) => Run(s, es[..k]).source[i]
  {
    if es == [] {
    } else {
      hide Step, Writes;
      var front := es[..|es| - 1];
      StepAt(s, Run(s, front), es[|es| - 1], i);
      ReplicaMirrors(s, front, i);
      var k := LastWrite(s, front, i);
      if k.Some? {
        assert front[..k.value] == es[..k.value];
      }
    }
  }

  /** A write of up to a gibibyte inside both memories copies its range to the same offset, and nothing else; a longer one is not made. */
  lemma WriteCopies(s: State, offset: nat, len: nat, i: nat)
    requires Formed(s) && offset + len <= |s.source| && offset + len <= |s.image| && i < |s.image|
    ensures Step(s, Write(offset, len)).image[i] ==
            if len <= 1073741824 && offset <= i < offset + len then s.source[i] else s.image[i]
    ensures Step(s, Write(offset, len)) == s.(image := Step(s, Write(offset, len)).image)
  {
  }

  /** Each durable byte is the region's byte when the last persistent flush covered it, or untouched. */
  lemma {:induction false} DurableMirrors(s: State, es: seq<Event>, i: nat)
    requires Formed(s) && i < |s.image|
    ensures Run(s, es).durable[i] == match LastPersist(s, es, i)
                                     case None => s.durable[i]
                                     case Some(k) => Run(s, es[..k]).image[i]
  {
    if es == [] {
    } else {
      hide Step, Persists;
      var front := es[..|es| - 1];
      StepAt(s, Run(s, front), es[|es| - 1], i);
      DurableMirrors(s, front, i);
      var k := LastPersist(s, front, i);
      if k.Some? {
        assert front[..k.value] == es[..k.value];
      }
    }
  }

  /** The value of the last store to byte `i` of the client's memory, or what it held at first. */
  function Stored(s: State, es: seq<Event>, i: nat): byte
    requires i < |s.source|
  {
    if es == [] then s.source[i]
    else if es[|es| - 1].Store? && es[|es| - 1].at == i then es[|es| - 1].value
    else Stored(s, es[..|es| - 1], i)
  }

  /** The client's memory is what the application stored there; no write and no flush changes it. */
  lemma {:induction false} SourceIsStored(s: State, es: seq<Event>, i: nat)
    requires Formed(s) && i < |s.source|
    ensures Run(s, es).source[i] == Stored(s, es, i)
  {
    if es != [] {
      SourceIsStored(s, es[..|es| - 1], i);
    }
  }

  /** A byte the application does not change keeps its value. */
  lemma {:induction false} SourceStays(s: State, es: seq<Event>, k: nat, i: nat)
    requires Formed(s) && k <= |es| && i < |s.source|
    requires forall j | k <= j < |es| :: es[j].Store? ==> es[j].at != i
    ensures Run(s, es).source[i] == Run(s, es[..k]).source[i]
  {
    if k == |es| {
      assert es[..k] == es;
    } else {
      var front := es[..|es| - 1];
      SourceStays(s, front, k, i);
      assert front[..k] == es[..k];
      assert es[|es| - 1].Store? ==> es[|es| - 1].at != i;
    }
  }

  /**
   Write, then flush, with the application leaving the byte alone from the write on: the region and,
   if the flush was persistent, the durable copy hold the client's byte, whatever else happened.
   */
  lemma {:induction false} WrittenAndFlushed(s: State, es: seq<Event>, i: nat)
    requires Formed(s) && i < |s.image| && i < |s.source|
    requires LastWrite(s, es, i).Some?
    requires forall j | LastWrite(s, es, i).value <= j < |es| :: es[j].Store? ==> es[j].at != i
    ensures Run(s, es).image[i] == Run(s, es).source[i]
    ensures LastPersist(s, es, i).Some? && LastPersist(s, es, i).value > LastWrite(s, es, i).value ==>
              Run(s, es).durable[i] == Run(s, es).source[i]
  {
    var k := LastWrite(s, es, i).value;
    ReplicaMirrors(s, es, i);
    SourceStays(s, es, k, i);
    var p := LastPersist(s, es, i);
    if p.Some? && p.value > k {
      var front := es[..p.value];
      DurableMirrors(s, es, i);
      ReplicaMirrors(s, front, i);
      LastWriteOfPrefix(s, es, p.value, i);
      assert front[..k] == es[..k];
    }
  }

  lemma {:induction false} LastWriteOfPrefix(s: State, es: seq<Event>, p: nat, i: nat)
    requires p <= |es| && LastWrite(s, es, i).Some? && LastWrite(s, es, i).value < p
    ensures LastWrite(s, es[..p], i) == LastWrite(s, es, i)
  {
    if p == |es| {
      assert es[..p] == es;
    } else {
      assert es[..|es| - 1][..p] == es[..p];
      LastWriteOfPrefix(s, es[..|es| - 1], p, i);
    }
  }

  // ---------------------------------------------------------------- in place

  /** The memories as arrays; completions change them in place. */
  class Replica {
    const source: array<byte>
    const image: array<byte>
    const durable: array<byte>
    const directWrite: bool

    ghost predicate Valid() {
      && source != image && source != durable && image != durable
      && image.Length == durable.Length
    }

    ghost function Now(): State
      reads this, source, image, durable
    {
      State(source[..], image[..], durable[..], directWrite)
    }

    constructor (size: nat, sourceSize: nat, directWrite: bool)
      ensures Valid() && fresh(source) && fresh(image) && fresh(durable)
      ensures source.Length == sourceSize && image.Length == size && this.directWrite == directWrite
    {
      source := new byte[sourceSize];
      image := new byte[size];
      durable := new byte[size];
      this.directWrite := directWrite;
    }

    /** `write` with the same offset on both sides, completed; a range outside either memory completes with an error. */
    method CompleteWrite(offset: nat, len: nat)
      requires Valid()
      modifies image
      ensures Now() == Step(old(Now()), Write(offset, len))
    {
      if len <= MAX_WRITE && offset + len <= source.Length && offset + len <= image.Length {
        Move(image, source, offset, len);
      }
    }

    /** `flush`, completed; a persistent one is refused unless the peer allows direct writes to pmem. */
    method CompleteFlush(offset: nat, len: nat, ty: H.FlushType)
      requires Valid()
      modifies durable
      ensures Now() == Step(old(Now()), Flush(offset, len, ty))
    {
      if ty == H.Persistent && directWrite && offset + len <= image.Length {
        Move(durable, image, offset, len);
      }
    }
  }

  method Move(dst: array<byte>, src: array<byte>, offset: nat, len: nat)
    requires dst != src && offset + len <= dst.Length && offset + len <= src.Length
    modifies dst
    ensures dst[..] == CopyRange(old(dst[..]), src[..], offset, len)
  {
    for k := 0 to len
      invariant forall i | 0 <= i < dst.Length ::
                  dst[i] == if offset <= i < offset + k then src[i] else old(dst[i])
    {
      dst[offset + k] := src[offset + k];
    }
  }
}
