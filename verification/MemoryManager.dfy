/** `MemoryManager` and the handler's `data_mr` as objects whose methods update their fields in place. */
module MemoryManagers {
  import opened Bytes
  import opened Region

  /** Owns the block; `audit` follows what its calls do to the foreign libraries' books. */
  class MemoryManager {
    var data: Option<Ptr>
    var size: nat
    var isPmem: bool
    ghost var audit: Audit

    /** The state this manager contributes to, beside the registration `mr`. */
    ghost function View(mr: Option<Mr>): State
      reads this
    {
      State(data, size, isPmem, mr, audit)
    }

    constructor (garbage: nat)
      ensures View(None) == Fresh(garbage)
    {
      data, size, isPmem := None, garbage, false;
      audit := Sound(map[], map[]);
    }

    method GetMemoryFromPmem(m: MapResult)
      modifies this
      ensures View(None) == TryPmem(old(View(None)), m)
    {
      data := None;
      if m.Map? {
        data := Some(m.ptr);
        audit := Acquire(audit, m.ptr, Pmem(m.len));
      }
      if m.NoMap? || !m.persistent || m.len != size {
        if data.Some? {
          audit := Release(audit, data.value, Pmem(size));
          data := None;
        }
      }
    }

    method GetMemoryFromDram(heap: Option<Ptr>)
      modifies this
      ensures View(None) == match heap
                            case None => old(View(None)).(data := None)
                            case Some(p) => old(View(None)).(data := heap, audit := Acquire(old(audit), p, Heap(old(size))))
    {
      data := heap;
      if heap.Some? {
        audit := Acquire(audit, heap.value, Heap(size));
      }
    }

    /** Yields false where the program throws. */
    method Init(size: nat, m: MapResult, heap: Option<Ptr>) returns (ok: bool)
      modifies this
      ensures View(None) == Region.Init(old(View(None)), size, m, heap)
      ensures ok == data.Some?
    {
      this.size := size;
      GetMemoryFromPmem(m);
      if data.Some? {
        isPmem := true;
        return true;
      }
      isPmem := false;
      GetMemoryFromDram(heap);
      ok := data.Some?;
    }

    method Unload()
      modifies this
      ensures View(None) == ReleaseBlock(old(View(None)))
    {
      if data.None? {
        return;
      }
      if isPmem {
        audit := Release(audit, data.value, Pmem(size));
      } else {
        audit := Release(audit, data.value, Heap(size));
      }
      data := None;
    }

    /** Without a block there is nothing to remove and the call succeeds; otherwise `remove` decides. */
    method CloseAndRemove(removed: bool) returns (ok: bool)
      modifies this
      ensures View(None) == ReleaseBlock(old(View(None)))
      ensures ok == (old(data).None? || removed)
    {
      ok := data.None? || removed;
      Unload();
    }
  }

  /** The handler's two members, in declaration order. */
  class DataRegion {
    const manager: MemoryManager
    var mr: Option<Mr>

    ghost function Now(): State
      reads this, manager
    {
      manager.View(mr)
    }

    constructor (garbage: nat)
      ensures Now() == Fresh(garbage)
      ensures fresh(manager)
    {
      manager := new MemoryManager(garbage);
      mr := None;
    }

    /** `data_mr.reset(m)`: takes the new registration, then ends the old one. */
    method Reset(m: Option<Mr>)
      modifies this, manager`audit
      ensures Now() == DropRegistration(old(Now())).(mr := m)
    {
      var was := mr;
      mr := m;
      if was.Some? {
        manager.audit := Deregister(manager.audit, was.value);
      }
    }

    /** The region part of `register_mr_to_descriptor`. */
    method RegisterMr(reg: Option<Mr>) returns (ok: bool)
      requires manager.data.Some?
      modifies this, manager`audit
      ensures Now() == RegisterBlock(old(Now()), reg)
      ensures ok == reg.Some?
    {
      if reg.None? {
        return false;
      }
      manager.audit := Register(manager.audit, reg.value, manager.data.value, manager.size);
      Reset(reg);
      ok := true;
    }

    /** `get_descriptor_for_write`: allocates unless a block is there, then registers it. */
    method Setup(size: nat, m: MapResult, heap: Option<Ptr>, reg: Option<Mr>) returns (ok: bool)
      modifies this, manager
      ensures Now() == Step(old(Now()), Event.Setup(size, m, heap, reg))
      ensures ok ==> manager.data.Some? && mr == reg && reg.Some?
    {
      if manager.data.None? {
        var got := manager.Init(size, m, heap);
        if !got {
          return false;
        }
      }
      ok := RegisterMr(reg);
    }

    method Close(removed: bool) returns (ok: bool)
      modifies this, manager
      ensures Now() == Step(old(Now()), Finish)
      ensures ok == (old(manager.data).None? || removed)
    {
      Reset(None);
      ok := manager.CloseAndRemove(removed);
    }

    /** Destruction, in reverse order of declaration. */
    method Dispose()
      modifies this, manager
      ensures Now() == Destroy(old(Now()))
    {
      Reset(None);
      manager.Unload();
    }
  }
}
