/**
 * `MemoryManagement`: deferred deletion. `freeMem` only records a pointer;
 * `freeMarkedMem` releases the whole recorded batch. The heap is the set of
 * live pointers plus the log of `free` calls, in order; the address
 * `malloc` returns is an input (0 standing for a failed allocation).
 */
module Memory {

  /** An address; 0 is the null pointer. */
  type Ptr = nat

  /** The pointers in `ps`, as a set. */
  function Elems(ps: seq<Ptr>): set<Ptr> {
    if ps == [] then {} else Elems(ps[..|ps| - 1]) + {ps[|ps| - 1]}
  }

  lemma {:induction false} ElemsSpec(ps: seq<Ptr>)
    ensures forall p :: p in Elems(ps) <==> p in ps
  {
    if ps != [] {
      ElemsSpec(ps[..|ps| - 1]);
      assert ps == ps[..|ps| - 1] + [ps[|ps| - 1]];
    }
  }

  /** The handler and the heap: live pointers, `markedForDeletion`, and every `free` so far. */
  datatype Heap = Heap(live: set<Ptr>, marked: seq<Ptr>, released: seq<Ptr>)

  /** `allocMem` when `malloc` returns `p`: a non-null result becomes live. */
  function Alloc(h: Heap, p: Ptr): Heap {
    if p == 0 then h else h.(live := h.live + {p})
  }

  /** `freeMem(p)`: `p` is recorded; nothing is released. */
  function Free(h: Heap, p: Ptr): Heap {
    h.(marked := h.marked + [p])
  }

  /** `freeMarkedMem`: every recorded pointer is released, in order, and the record is cleared. */
  function Flush(h: Heap): Heap {
    Heap(h.live - Elems(h.marked), [], h.released + h.marked)
  }

  /**
   * After a flush no recorded pointer is live, every other live pointer
   * still is, and the releases happen in the order the pointers were
   * recorded, each as often as it was recorded.
   */
  lemma FlushSpec(h: Heap)
    ensures forall p :: p in Flush(h).live <==> p in h.live && p !in h.marked
    ensures Flush(h).marked == []
    ensures Flush(h).released[..|h.released|] == h.released && Flush(h).released[|h.released|..] == h.marked
    ensures forall p :: multiset(Flush(h).released)[p] == multiset(h.released)[p] + multiset(h.marked)[p]
  {
    ElemsSpec(h.marked);
    assert (h.released + h.marked)[..|h.released|] == h.released;
  }

  /** A second flush right after the first releases nothing and changes nothing. */
  lemma FlushTwice(h: Heap)
    ensures Flush(Flush(h)) == Flush(h)
  {
    assert Elems([]) == {};
    assert Flush(h).released + [] == Flush(h).released;
  }

  /** `freeMem` never releases: live pointers and the release log stay as they are. */
  lemma FreeDefers(h: Heap, p: Ptr)
    ensures Free(h, p).live == h.live && Free(h, p).released == h.released
    ensures Free(h, p).marked == h.marked + [p]
  {
  }

  /**
   * Nothing removes duplicates: deleting the same pointer twice before a
   * flush makes the flush release it twice.
   */
  lemma DoubleDelete(h: Heap, p: Ptr)
    requires h.marked == []
    ensures Flush(Free(Free(h, p), p)).released == h.released + [p, p]
    ensures multiset(Flush(Free(Free(h, p), p)).released)[p] == multiset(h.released)[p] + 2
  {
    assert Free(Free(h, p), p).marked == [p, p];
  }

  /** `MemoryHandler`. */
  class MemoryHandler {
    var markedForDeletion: seq<Ptr>
    /** The heap outside the handler: live pointers and the `free` calls made. */
    var live: set<Ptr>
    var released: seq<Ptr>

    function State(): Heap
      reads this
    {
      Heap(live, markedForDeletion, released)
    }

    /** The defaulted constructor: nothing recorded, on the given heap. */
    constructor (live: set<Ptr>, released: seq<Ptr>)
      ensures State() == Heap(live, [], released)
    {
      markedForDeletion := [];
      this.live := live;
      this.released := released;
    }

    /** `allocMem`: `malloc` returned `p`, 0 on failure, otherwise a pointer that was not live. */
    method AllocMem(sz: nat, p: Ptr) returns (r: Ptr)
      requires p != 0 ==> p !in live
      modifies this
      ensures r == p && State() == Alloc(old(State()), p)
    {
      if p != 0 {
        live := live + {p};
      }
      r := p;
    }

    /** `freeMem`. */
    method FreeMem(p: Ptr)
      modifies this
      ensures State() == Free(old(State()), p)
    {
      markedForDeletion := markedForDeletion + [p];
    }

    /** `freeMarkedMem`: `free` on each recorded pointer in list order, then the list is cleared. */
    method FreeMarkedMem()
      modifies this
      ensures State() == Flush(old(State()))
    {
      var marked := markedForDeletion;
      for i := 0 to |marked|
        invariant markedForDeletion == marked
        invariant released == old(released) + marked[..i]
        invariant live == old(live) - Elems(marked[..i])
      {
        assert marked[..i + 1][..i] == marked[..i];
        released := released + [marked[i]];
        live := live - {marked[i]};
        assert released == old(released) + marked[..i + 1];
      }
      assert marked[..|marked|] == marked;
      markedForDeletion := [];
    }

    /** The destructor flushes the record. */
    method Destroy()
      modifies this
      ensures State() == Flush(old(State()))
    {
      FreeMarkedMem();
    }
  }

  /** `struct Memory`: its allocation operators route to the shared handler `MyMemory`. */
  class Memory {
    const myMemory: MemoryHandler

    constructor (myMemory: MemoryHandler)
      ensures this.myMemory == myMemory
    {
      this.myMemory := myMemory;
    }

    /** `operator new`: `allocMem`. */
    method OperatorNew(sz: nat, p: Ptr) returns (r: Ptr)
      requires p != 0 ==> p !in myMemory.live
      modifies myMemory
      ensures r == p && myMemory.State() == Alloc(old(myMemory.State()), p)
    {
      r := myMemory.AllocMem(sz, p);
    }

    /** `operator new[]`: `allocMem`. */
    method OperatorNewArray(sz: nat, p: Ptr) returns (r: Ptr)
      requires p != 0 ==> p !in myMemory.live
      modifies myMemory
      ensures r == p && myMemory.State() == Alloc(old(myMemory.State()), p)
    {
      r := myMemory.AllocMem(sz, p);
    }

    /** `operator delete`: `freeMem`, so the object's memory is only recorded. */
    method OperatorDelete(p: Ptr)
      modifies myMemory
      ensures myMemory.State() == Free(old(myMemory.State()), p)
    {
      myMemory.FreeMem(p);
    }

    /** `operator delete[]`: `freeMem`. */
    method OperatorDeleteArray(p: Ptr)
      modifies myMemory
      ensures myMemory.State() == Free(old(myMemory.State()), p)
    {
      myMemory.FreeMem(p);
    }

    /** The static `freeMarkedMem`: flushes the shared handler. */
    method FreeMarkedMem()
      modifies myMemory
      ensures myMemory.State() == Flush(old(myMemory.State()))
    {
      myMemory.FreeMarkedMem();
    }
  }
}
