/** src/memheap.c: rt_memheap_init, rt_memheap_alloc, rt_memheap_free and rt_memheap_realloc on the words
    of the pool.

    `heap` is what the words mean; every method ties it to the specification and says which words it
    leaves alone.  Searching and header updates are the assignments of the source on the word map `mem`;
    the lemmas at the end read single words off a memory that represents a heap. */
module Memheap {
  import opened Seqs
  import opened MemheapSpec
  import opened MemheapProps
  import opened MemheapRings
  import opened MemheapMemory

  class MemHeap {
    var mem: Memory
    /** The address of the free_header item inside the heap object, which also identifies the heap. */
    const head: int
    const start: int
    const poolSize: int
    var available: int
    var maxUsed: int
    ghost var heap: Heap

    ghost predicate Valid()
      reads this
    {
      && Represents(mem, heap, head)
      && heap.start == start && heap.pool == poolSize && heap.available == available && heap.maxUsed == maxUsed
    }

    /** rt_memheap_init on a pool of `size` bytes: one free item, and the empty used tail that stops
        merging at the end of the pool. */
    constructor (head: int, start: int, size: nat)
      requires 0 < start && 8 * HEADER <= size / 8 * 8 && Outside(head, start, start + size / 8 * 2)
      ensures Valid() && fresh(this)
      ensures heap == Init(start, size / 8 * 2) && this.head == head
    {
      hide Represents, InitWords, Init, Wf;
      this.head := head;
      this.start := start;
      poolSize := size / 8 * 2;
      available := size / 8 * 2 - 2 * HEADER;
      maxUsed := 2 * HEADER;
      mem := InitWords(map[], head, start, start + size / 8 * 2 - HEADER);
      heap := Init(start, size / 8 * 2);
      new;
      InitRep(map[], head, start, size / 8 * 2);
    }

    /** The number of data words of the item at `a`. */
    function ItemSize(a: int): int
      reads this
    {
      Field(mem, a, NEXT) - a - HEADER
    }

    predicate IsUsed(a: int)
      reads this
    {
      Field(mem, a, MAGIC_AT) % 2 == 1
    }

    method CountMax()
      modifies this`maxUsed
      ensures maxUsed == Max(old(maxUsed), poolSize - available)
    {
      if poolSize - available > maxUsed {
        maxUsed := poolSize - available;
      }
    }

    /** The search loop: the first item of the free ring that is large enough, with its size, or a size
        below the request. */
    method Search(size: int) returns (hp: int, freeSize: int)
      requires Valid() && MINIALLOC <= size
      ensures freeSize >= size <==> Fit(heap.free, heap.blocks, size) < |heap.free|
      ensures freeSize >= size ==> hp == heap.free[Fit(heap.free, heap.blocks, size)]
      ensures freeSize >= size ==> var k := IndexOf(heap.blocks, hp);
              k + 1 < |heap.blocks| && freeSize == heap.blocks[k].size
    {
      hide Represents, Fit, Word;
      freeSize, hp := 0, Field(mem, head, NEXT_FREE);
      ghost var p := 0;
      FreeRead(mem, heap, head, 0);
      while hp != head && freeSize < size
        invariant p <= |heap.free| && hp == (if p < |heap.free| then heap.free[p] else head)
        invariant p < |heap.free| ==> hp != head
        invariant forall i | 0 <= i < p :: TooSmall(heap, heap.free[i], size)
        invariant freeSize >= size ==> p < |heap.free| && !TooSmall(heap, hp, size)
        invariant freeSize >= size ==> freeSize == heap.blocks[IndexOf(heap.blocks, hp)].size
        decreases |heap.free| - p, if freeSize < size then 1 else 0
      {
        FreeRead(mem, heap, head, p + 1);
        freeSize := ItemSize(hp);
        if freeSize < size {
          hp := Field(mem, hp, NEXT_FREE);
          p := p + 1;
        }
      }
      FitIs(heap, size, p);
      if p < |heap.free| { FreeRead(mem, heap, head, p + 1); }
    }

    method Alloc(bytes: nat) returns (ptr: int)
      requires Valid()
      modifies this
      ensures Valid()
      ensures (heap, ptr) == MemheapSpec.Alloc(old(heap), Request(bytes))
      ensures Kept(old(mem), mem, old(heap), heap)
    {
      hide Represents, Kept, Linked, Unlinked, Stamped, Fit, Without, Splice;
      var size := Request(bytes);
      ptr := NULL;
      KeptSame(mem, heap, heap);
      if size < available {
        var hp, freeSize := Search(size);
        ghost var p := Fit(heap.free, heap.blocks, size);
        if freeSize >= size {
          ghost var k := IndexOf(heap.blocks, hp);
          AllocRep(mem, heap, head, k, size, p);
          ghost var m0, h0 := mem, heap;
          if freeSize >= size + HEADER + MINIALLOC {
            var newPtr := hp + size + HEADER;
            mem := Stamped(mem, newPtr, head);
            mem := Linked(mem, hp, newPtr, NEXT);
            mem := Unlinked(mem, hp, NEXT_FREE);
            mem := mem[hp + NEXT_FREE := NULL][hp + PREV_FREE := NULL];
            mem := Linked(mem, head, newPtr, NEXT_FREE);
            available := available - size - HEADER;
          } else {
            available := available - freeSize;
            mem := Unlinked(mem, hp, NEXT_FREE);
            mem := mem[hp + NEXT_FREE := NULL][hp + PREV_FREE := NULL];
          }
          CountMax();
          mem := mem[hp + MAGIC_AT := WithUsed(Field(mem, hp, MAGIC_AT))];
          ptr := hp + HEADER;
          heap := AllocAt(heap, k, size);
          assert mem == AllocWords(m0, head, h0.blocks[k], size);
        }
      }
    }

    method Free(ptr: int)
      requires Valid() && (ptr == NULL || Live(heap, ptr))
      modifies this
      ensures Valid()
      ensures heap == MemheapSpec.Free(old(heap), ptr)
      ensures Kept(old(mem), mem, old(heap), heap)
    {
      hide Represents, Kept, Linked, Unlinked, Field, Wf, Live, FreeAt, MergeFrom, MergeTo, WithoutUsed;
      KeptSame(mem, heap, heap);
      if ptr == NULL {
        return;
      }
      var hp := ptr - HEADER;
      ghost var k, m0, h0 := IndexOf(heap.blocks, hp), mem, heap;
      LiveIndex(h0, ptr);
      FreeReads(m0, h0, head, k);
      FreeEnds(m0, h0, head, k);

      mem := mem[hp + MAGIC_AT := WithoutUsed(Field(mem, hp, MAGIC_AT))];
      available := available + ItemSize(hp);

      var insert := true;
      if !IsUsed(Field(mem, hp, PREV)) {
        available := available + HEADER;
        var prev := Field(mem, hp, PREV);
        mem := Unlinked(mem, hp, NEXT);
        hp := prev;
        insert := false;
      }
      var nx := Field(mem, hp, NEXT);
      if !IsUsed(nx) {
        available := available + HEADER;
        mem := Unlinked(mem, nx, NEXT);
        mem := Unlinked(mem, nx, NEXT_FREE);
      }
      if insert {
        mem := Linked(mem, head, hp, NEXT_FREE);
      }
      assert mem == ReleaseWords(m0, head, h0.blocks, k);
      heap := FreeAt(heap, k);
    }

    /** rt_memcpy between two live blocks. */
    method Copy(dst: int, src: int, n: int)
      requires Valid() && dst != src && Live(heap, dst) && Live(heap, src) && 0 <= n <= SizeOf(heap, dst)
               && n <= SizeOf(heap, src)
      modifies this`mem
      ensures Valid()
      ensures Copied(old(mem), src, mem, dst, n)
      ensures forall x | !(dst <= x < dst + n) :: Word(mem, x) == old(Word(mem, x))
    {
      hide Represents, Wf, Live, IndexOf;
      RepStage(mem, heap, head);
      var i := 0;
      while i < n
        invariant 0 <= i <= n && Represents(mem, heap, head)
        invariant Copied(old(mem), src, mem, dst, i)
        invariant forall x | !(dst <= x < dst + i) :: Word(mem, x) == old(Word(mem, x))
      {
        DataApart(heap, dst, src, src + i);
        DataWrite(mem, heap, head, dst, i, Word(mem, src + i));
        mem := mem[dst + i := Word(mem, src + i)];
        i := i + 1;
      }
    }

    /** The in-place growing path of rt_memheap_realloc. */
    method Grow(ptr: int, oldSize: int, newSize: int)
      requires Valid() && Live(heap, ptr)
      requires var k := IndexOf(heap.blocks, ptr - HEADER);
               && oldSize == heap.blocks[k].size && !heap.blocks[k + 1].used
               && oldSize < newSize <= oldSize + heap.blocks[k + 1].size
      modifies this
      ensures Valid()
      ensures heap == GrowAt(old(heap), IndexOf(old(heap).blocks, ptr - HEADER), newSize)
      ensures Kept(old(mem), mem, old(heap), heap)
    {
      hide Represents, Kept, Wf, GrowAt, Linked, Unlinked, Stamped, Field;
      var hp := ptr - HEADER;
      ghost var k := IndexOf(heap.blocks, hp);
      LiveRead(mem, heap, head, ptr);
      GrowGuide(mem, heap, head, k, newSize);
      var nx := Field(mem, hp, NEXT);
      available := available - (newSize - oldSize);
      CountMax();
      mem := Unlinked(mem, nx, NEXT_FREE);
      mem := Unlinked(mem, nx, NEXT);
      nx := ptr + newSize;
      mem := Stamped(mem, nx, head);
      mem := Linked(mem, hp, nx, NEXT);
      mem := Linked(mem, head, nx, NEXT_FREE);
      heap := GrowAt(heap, k, newSize);
    }

    /** The in-place shrinking path of rt_memheap_realloc. */
    method Shrink(ptr: int, newSize: int)
      requires Valid() && Live(heap, ptr) && 0 <= newSize && newSize + HEADER <= SizeOf(heap, ptr)
      modifies this
      ensures Valid()
      ensures heap == ShrinkAt(old(heap), IndexOf(old(heap).blocks, ptr - HEADER), newSize)
      ensures Kept(old(mem), mem, old(heap), heap)
    {
      hide Represents, Kept, Wf, ShrinkAt, Linked, Unlinked, Stamped, Field, MergeTo;
      var hp := ptr - HEADER;
      ghost var k, m0, h0 := IndexOf(heap.blocks, hp), mem, heap;
      ShrinkGuide(m0, h0, head, k, newSize);
      var newPtr := hp + newSize + HEADER;
      mem := Stamped(mem, newPtr, head);
      mem := Linked(mem, hp, newPtr, NEXT);
      var freePtr := Field(mem, newPtr, NEXT);
      if !IsUsed(freePtr) {
        available := available - ItemSize(freePtr);
        mem := Unlinked(mem, freePtr, NEXT);
        mem := Unlinked(mem, freePtr, NEXT_FREE);
      }
      mem := Linked(mem, head, newPtr, NEXT_FREE);
      assert mem == ShrinkWords(m0, head, h0.blocks, k, newSize);
      available := available + ItemSize(newPtr);
      heap := ShrinkAt(heap, k, newSize);
    }

    /** The moving path of rt_memheap_realloc. */
    method Move(ptr: int, oldSize: int, newSize: int) returns (q: int)
      requires Valid() && Live(heap, ptr) && oldSize == SizeOf(heap, ptr) && 0 <= oldSize < newSize
      modifies this
      ensures Valid()
      ensures q == MemheapSpec.Alloc(old(heap), Request(4 * newSize)).1
      ensures heap == var h1 := MemheapSpec.Alloc(old(heap), Request(4 * newSize)).0;
                      if q == NULL then h1 else MemheapSpec.Free(h1, ptr)
      ensures q != NULL ==> Live(heap, q) && oldSize <= SizeOf(heap, q) && Copied(old(mem), ptr, mem, q, oldSize)
      ensures OthersKept(old(mem), mem, old(heap), ptr)
      ensures q == NULL ==> heap == old(heap) && Kept(old(mem), mem, heap, heap)
    {
      hide Represents, Kept, Wf, Live, IndexOf, Changed, OthersKept, SizeOf, Word, MemheapSpec.Alloc, MemheapSpec.Free,
           Request;
      ghost var h0, m0 := heap, mem;
      RepStage(mem, heap, head);
      ghost var n := Request(4 * newSize);
      MoveFacts(h0, ptr, oldSize, newSize);
      q := Alloc(4 * newSize);
      ghost var h1, m1 := heap, mem;
      AllocOthers(m0, m1, h0, n);
      if q == NULL {
        OthersWeaker(m0, m1, h0, ptr);
      } else {
        KeptFirst(m0, m1, h0, h1, ptr);
        Copy(q, ptr, if oldSize < newSize then oldSize else newSize);
        ghost var m2 := mem;
        Free(ptr);
        KeptFirst(m2, mem, h1, heap, q);
        MoveOthers(m0, m1, m2, mem, h0, h1, heap, ptr, q, oldSize);
      }
    }

    /** rt_memheap_realloc: besides the heap it leaves, the first words of the block survive on every
        path, as many as both sizes hold, and no word of another live block changes. */
    method Realloc(ptr: int, bytes: nat) returns (q: int)
      requires Valid() && (ptr == NULL || Live(heap, ptr))
      modifies this
      ensures Valid()
      ensures (heap, q) == MemheapSpec.Realloc(old(heap), ptr, bytes)
      ensures q != NULL ==> Live(heap, q)
      ensures ptr != NULL && q != NULL ==> Copied(old(mem), ptr, mem, q, Min(SizeOf(old(heap), ptr), SizeOf(heap, q)))
      ensures OthersKept(old(mem), mem, old(heap), ptr)
      ensures bytes > 0 && q == NULL ==> heap == old(heap) && Kept(old(mem), mem, heap, heap)
    {
      hide Represents, Kept, Wf, Live, IndexOf, Changed, GrowAt, ShrinkAt, OthersKept, Copied, FreeAt, SizeOf,
           MemheapSpec.Alloc, MemheapSpec.Free, Request, Field;
      ghost var h0, m0 := heap, mem;
      RepStage(mem, heap, head);
      ReallocSound(h0, ptr, bytes);
      if bytes == 0 {
        Free(ptr);
        q := NULL;
        NullIsDead(h0);
        KeptOthers(m0, mem, h0, heap, ptr, NULL);
        return;
      }
      var newSize := Request(bytes);
      if ptr == NULL {
        q := Alloc(4 * newSize);
        AllocOthers(m0, mem, h0, Request(4 * newSize));
        return;
      }
      var hp := ptr - HEADER;
      LiveRead(m0, h0, head, ptr);
      var oldSize := ItemSize(hp);
      if newSize > oldSize {
        var nx := Field(mem, hp, NEXT);
        if !IsUsed(nx) && ItemSize(nx) + oldSize > newSize + MINIALLOC {
          Grow(ptr, oldSize, newSize);
          q := ptr;
          KeptOthers(m0, mem, h0, heap, ptr, ptr);
          KeptFirst(m0, mem, h0, heap, ptr);
        } else {
          q := Move(ptr, oldSize, newSize);
        }
      } else if newSize + HEADER + MINIALLOC >= oldSize {
        q := ptr;
        KeptSame(mem, heap, heap);
        KeptOthers(m0, mem, h0, heap, ptr, ptr);
        KeptFirst(m0, mem, h0, heap, ptr);
      } else {
        Shrink(ptr, newSize);
        q := ptr;
        KeptOthers(m0, mem, h0, heap, ptr, ptr);
        KeptFirst(m0, mem, h0, heap, ptr);
      }
    }
  }

  ghost predicate TooSmall(h: Heap, a: int, n: int) {
    var k := IndexOf(h.blocks, a); k < |h.blocks| ==> h.blocks[k].size < n
  }

  lemma {:induction false} FitIs(h: Heap, n: int, p: nat)
    requires p <= |h.free| && forall i | 0 <= i < p :: TooSmall(h, h.free[i], n)
    requires p < |h.free| ==> !TooSmall(h, h.free[p], n)
    ensures Fit(h.free, h.blocks, n) == p
  {
    FitIsFirst(h, h.free, n);
    var r := Fit(h.free, h.blocks, n);
    assert r < |h.free| ==> !TooSmall(h, h.free[r], n);
    assert forall i | 0 <= i < r :: TooSmall(h, h.free[i], n);
  }

  lemma {:induction false} WfTiles(h: Heap)
    requires Wf(h)
    ensures Tiles(h.blocks, h.start, h.start + h.pool)
  {
  }

  lemma {:induction false} FreeLink(m: Memory, h: Heap, head: int, p: nat)
    requires Represents(m, h, head) && p <= |h.free|
    ensures Field(m, if p == 0 then head else h.free[p - 1], NEXT_FREE) == if p < |h.free| then h.free[p] else head
  {
    hide Wf, Outside, Word;
    var r := [head] + h.free;
    assert r[p] == if p == 0 then head else h.free[p - 1];
    assert After(p, |r|) == if p < |h.free| then p + 1 else 0;
  }

  /** Following the free ring: item `p` of the ring, counting the header as 0. */
  lemma {:induction false} FreeRead(m: Memory, h: Heap, head: int, p: nat)
    requires Represents(m, h, head) && p <= |h.free|
    ensures var a := if p == 0 then head else h.free[p - 1];
            && Field(m, a, NEXT_FREE) == (if p < |h.free| then h.free[p] else head)
            && (p > 0 ==> a != head && var k := IndexOf(h.blocks, a);
                          && k + 1 < |h.blocks| && h.blocks[k].addr == a && !h.blocks[k].used
                          && Field(m, a, NEXT) - a - HEADER == h.blocks[k].size)
            && (p < |h.free| ==> h.free[p] != head)
  {
    hide Represents, Shape, Wf, Stage, Tiles, Listed, Outside, Owns, Owner, Field;
    FreeLink(m, h, head, p);
    RepStage(m, h, head);
    if p > 0 {
      FreeIndex(h, p - 1);
      var k := IndexOf(h.blocks, h.free[p - 1]);
      WfTiles(h);
      StageRead(m, head, h.start, h.start + h.pool, h.blocks, h.free, k);
      OwnerOwns(h.blocks, h.start, h.start + h.pool, head, k);
      Around(h, k);
    }
    if p < |h.free| {
      FreeIndex(h, p);
      WfTiles(h);
      OwnerOwns(h.blocks, h.start, h.start + h.pool, head, IndexOf(h.blocks, h.free[p]));
    }
  }

  /** What taking block `k` for `n` words does to the words of the pool. */
  lemma {:induction false} AllocRep(m: Memory, h: Heap, head: int, k: nat, n: int, p: nat)
    requires Represents(m, h, head) && p < |h.free| && k == IndexOf(h.blocks, h.free[p]) && k < |h.blocks|
    requires MINIALLOC <= n <= h.blocks[k].size
    ensures var (m', h') := (AllocWords(m, head, h.blocks[k], n), AllocAt(h, k, n));
            Represents(m', h', head) && Kept(m, m', h, h')
    ensures h.blocks[k].addr == h.free[p]
  {
    hide Represents, Kept, AllocWords, AllocAt, Wf;
    RepStage(m, h, head);
    FreeIndex(h, p);
    AllocAtKeeps(h, k, n);
    if h.blocks[k].size >= n + HEADER + MINIALLOC {
      SplitWords(m, h, head, k, n, p);
    } else {
      WholeWords(m, h, head, k, n, p);
    }
  }

  /** What the items around block `k` say once it is marked free. */
  lemma {:induction false} UnmarkRead(m0: Memory, m: Memory, h: Heap, head: int, k: nat)
    requires Represents(m0, h, head) && k + 1 < |h.blocks| && h.blocks[k].used
    requires var a := h.blocks[k].addr; m == m0[a + MAGIC_AT := WithoutUsed(Field(m0, a, MAGIC_AT))]
    ensures var (b, a) := (h.blocks, h.blocks[k].addr);
            && Field(m, a, NEXT) == b[k + 1].addr && Field(m, a, PREV) == b[Before(k, |b|)].addr
            && (Field(m, Field(m, a, PREV), MAGIC_AT) % 2 == 1) == b[Before(k, |b|)].used
            && (k == 0 ==> b[Before(k, |b|)].used)
  {
    hide Represents, Stage, Listed, Shape, Wf, Tiles, Outside, Word, Field, Unmarked, Touched;
    var (b, lo, hi) := (h.blocks, h.start, h.start + h.pool);
    RepStage(m0, h, head);
    UsedNotFree(h, k);
    StageMark(m0, head, lo, hi, b, h.free, k);
    MarkStage(m0, head, lo, hi, b, h.free, k, false);
    StageRead(m, head, lo, hi, b[k := b[k].(used := false)], h.free, k);
    StageRead(m, head, lo, hi, b[k := b[k].(used := false)], h.free, Before(k, |b|));
    TailUsed(h);
  }

  lemma {:induction false} TailUsed(h: Heap)
    requires Wf(h)
    ensures 2 <= |h.blocks| && h.blocks[|h.blocks| - 1].used
  {
  }

  lemma {:induction false} LiveIndex(h: Heap, ptr: int)
    requires Live(h, ptr)
    ensures var k := IndexOf(h.blocks, ptr - HEADER);
            k + 1 < |h.blocks| && h.blocks[k].used && h.blocks[k].addr == ptr - HEADER
            && (ptr != NULL ==> MemheapSpec.Free(h, ptr) == FreeAt(h, k))
  {
  }

  /** What rt_memheap_free reads on its way. */
  lemma {:induction false} FreeReads(m: Memory, h: Heap, head: int, k: nat)
    requires Represents(m, h, head) && k + 1 < |h.blocks| && h.blocks[k].used
    ensures var (b, a, l) := (h.blocks, h.blocks[k].addr, MergeFrom(h.blocks, k));
            var m1 := m[a + MAGIC_AT := WithoutUsed(Field(m, a, MAGIC_AT))];
            var m2 := if l < k then Unlinked(m1, a, NEXT) else m1;
            && Field(m1, a, NEXT) - a - HEADER == b[k].size
            && (l < k) == (Field(m1, Field(m1, a, PREV), MAGIC_AT) % 2 != 1)
            && (l < k ==> l == k - 1 && Field(m1, a, PREV) == b[l].addr) && l <= k
            && Field(m2, b[l].addr, NEXT) == b[k + 1].addr
            && (MergeTo(b, k) == k + 2) == (Field(m2, b[k + 1].addr, MAGIC_AT) % 2 != 1)
  {
    hide Represents, Linked, Unlinked, Field, Wf, Stage, Listed, Outside, LeftJoined, Touched, WithoutUsed, Addrs,
         Owner, Tiles, Unmarked;
    var (b, lo, hi, l, a) := (h.blocks, h.start, h.start + h.pool, MergeFrom(h.blocks, k), h.blocks[k].addr);
    RepStage(m, h, head);
    UsedNotFree(h, k);
    Around(h, k);
    StageMark(m, head, lo, hi, b, h.free, k);
    UnmarkRead(m, m[a + MAGIC_AT := WithoutUsed(Field(m, a, MAGIC_AT))], h, head, k);
    LeftStage(m, head, lo, hi, b, h.free, k);
    LeftJoinedAt(b, k);
    var m1 := m[a + MAGIC_AT := WithoutUsed(Field(m, a, MAGIC_AT))];
    var m2 := if l < k then Unlinked(m1, a, NEXT) else m1;
    StageRead(m2, head, lo, hi, LeftJoined(b, k), h.free, l);
    StageRead(m2, head, lo, hi, LeftJoined(b, k), h.free, l + 1);
  }

  /** What rt_memheap_free ends with. */
  lemma {:induction false} FreeEnds(m: Memory, h: Heap, head: int, k: nat)
    requires Represents(m, h, head) && k + 1 < |h.blocks| && h.blocks[k].used
    ensures Represents(ReleaseWords(m, head, h.blocks, k), FreeAt(h, k), head)
    ensures Kept(m, ReleaseWords(m, head, h.blocks, k), h, FreeAt(h, k))
    ensures FreeAt(h, k).available ==
            h.available + h.blocks[k].size + (if MergeFrom(h.blocks, k) < k then HEADER else 0)
                                      + (if MergeTo(h.blocks, k) == k + 2 then HEADER else 0)
    ensures FreeAt(h, k).maxUsed == h.maxUsed && FreeAt(h, k).start == h.start && FreeAt(h, k).pool == h.pool
  {
    hide Represents, Kept, Wf, Stage, Listed, Outside, Splice, Without, ReleaseWords;
    RepStage(m, h, head);
    FreeAtKeeps(h, k);
    ReleaseRep(m, h, head, k);
  }

  /** Every live block but `gone` keeps all its words. */
  ghost predicate OthersKept(m: Memory, m': Memory, h: Heap, gone: int) {
    forall r, x | Live(h, r) && r != gone && r <= x < r + SizeOf(h, r) :: Word(m', x) == Word(m, x)
  }

  lemma {:induction false} KeptOthers(m: Memory, m': Memory, h: Heap, h': Heap, gone: int, came: int)
    requires Kept(m, m', h, h') && Changed(h, h', gone, came) && (came == gone || !Live(h, came))
    ensures OthersKept(m, m', h, gone)
  {
    hide Live, SizeOf;
  }

  lemma {:induction false} KeptFirst(m: Memory, m': Memory, h: Heap, h': Heap, ptr: int)
    requires Kept(m, m', h, h') && Live(h, ptr) && Live(h', ptr)
    ensures Copied(m, ptr, m', ptr, Min(SizeOf(h, ptr), SizeOf(h', ptr)))
  {
    hide Live, SizeOf, Word;
  }

  /** The first `n` words at `dst` are those that were at `src`. */
  ghost predicate Copied(m: Memory, src: int, m': Memory, dst: int, n: int) {
    forall i | 0 <= i < n :: Field(m', dst, i) == Field(m, src, i)
  }

  function Min(a: int, b: int): int { if a < b then a else b }

  /** The data of two live blocks do not overlap. */
  lemma {:induction false} DataApart(h: Heap, q: int, r: int, x: int)
    requires Wf(h) && Live(h, q) && Live(h, r) && q != r && r <= x < r + SizeOf(h, r)
    ensures !(q <= x < q + SizeOf(h, q))
  {
    TilesApart(h.blocks, h.start, h.start + h.pool);
    var i, j := IndexOf(h.blocks, q - HEADER), IndexOf(h.blocks, r - HEADER);
    assert h.blocks[i].addr == q - HEADER && h.blocks[j].addr == r - HEADER;
  }

  /** Writing into the data of a live block leaves the heap alone. */
  lemma {:induction false} DataWrite(m: Memory, h: Heap, head: int, q: int, i: int, v: int)
    requires Represents(m, h, head) && Live(h, q) && 0 <= i < SizeOf(h, q)
    ensures Represents(m[q + i := v], h, head)
  {
    hide Wf, Live, SizeOf, Ring;
    var (m', b, r) := (m[q + i := v], Addrs(h.blocks), [head] + h.free);
    forall j, o | 0 <= j < |b| && 0 <= o < NEXT_FREE ensures Field(m', b[j], o) == Field(m, b[j], o) {
      DataClear(h, q, q + i, b[j]);
    }
    FreeIsList(h);
    forall j, o | 0 <= j < |r| && NEXT_FREE <= o < HEADER ensures Field(m', r[j], o) == Field(m, r[j], o) {
      DataClear(h, q, q + i, if j > 0 then h.free[j - 1] else FirstAddr(h));
    }
    ShapeFrame(m, m', head, b, Marks(h.blocks), h.free);
  }

  function FirstAddr(h: Heap): (a: int)
    requires Wf(h)
    ensures a in Addrs(h.blocks)
  {
    assert Addrs(h.blocks)[0] == h.blocks[0].addr;
    h.blocks[0].addr
  }

  lemma {:induction false} LiveRead(m: Memory, h: Heap, head: int, ptr: int)
    requires Represents(m, h, head) && Live(h, ptr)
    ensures var (b, k) := (h.blocks, IndexOf(h.blocks, ptr - HEADER));
            && k + 1 < |b| && b[k].used && b[k].addr == ptr - HEADER && SizeOf(h, ptr) == b[k].size
            && Field(m, ptr - HEADER, NEXT) == b[k + 1].addr && b[k + 1].addr - (ptr - HEADER) - HEADER == b[k].size
            && (Field(m, b[k + 1].addr, MAGIC_AT) % 2 == 1) == b[k + 1].used && b[k].size >= 0
            && (!b[k + 1].used ==> Field(m, b[k + 1].addr, NEXT) - b[k + 1].addr - HEADER == b[k + 1].size)
  {
    hide Represents, Wf, Stage, Listed, Outside, Word, Field;
    var k := IndexOf(h.blocks, ptr - HEADER);
    RepStage(m, h, head);
    StageRead(m, head, h.start, h.start + h.pool, h.blocks, h.free, k);
    StageRead(m, head, h.start, h.start + h.pool, h.blocks, h.free, k + 1);
    Around(h, k);
    if !h.blocks[k + 1].used { Around(h, k + 1); }
  }

  lemma {:induction false} OthersWeaker(m: Memory, m': Memory, h: Heap, gone: int)
    requires OthersKept(m, m', h, NULL) && !Live(h, NULL)
    ensures OthersKept(m, m', h, gone)
  {
    hide Live, SizeOf, Word;
  }

  lemma {:induction false} AllocOthers(m: Memory, m': Memory, h: Heap, n: int)
    requires Wf(h) && MINIALLOC <= n && Kept(m, m', h, MemheapSpec.Alloc(h, n).0)
    ensures OthersKept(m, m', h, NULL)
    ensures var (h', q) := MemheapSpec.Alloc(h, n); q != NULL ==> Live(h', q)
  {
    hide Wf, Live, SizeOf, Word, MemheapSpec.Alloc, Changed;
    AllocSound(h, n);
    NullIsDead(h);
    var (h', q) := MemheapSpec.Alloc(h, n);
    if q == NULL { SameOthers(m, m', h); } else { KeptOthers(m, m', h, h', NULL, q); ChangedCame(h, h', NULL, q); }
  }

  lemma {:induction false} SameOthers(m: Memory, m': Memory, h: Heap)
    requires Kept(m, m', h, h)
    ensures OthersKept(m, m', h, NULL)
  {
    hide Live, SizeOf, Word;
  }

  lemma {:induction false} ChangedCame(h: Heap, h': Heap, gone: int, came: int)
    requires Changed(h, h', gone, came) && came != NULL
    ensures Live(h', came)
    ensures forall r | Live(h, r) && r != gone && r != came :: Live(h', r) && SizeOf(h', r) == SizeOf(h, r)
  {
    hide Live, SizeOf;
  }

  /** The blocks in play while a block moves. */
  lemma {:induction false} MoveFacts(h: Heap, ptr: int, oldSize: int, newSize: int)
    requires Wf(h) && Live(h, ptr) && oldSize == SizeOf(h, ptr) && 0 <= oldSize < newSize
    ensures var n := Request(4 * newSize);
            var (h1, q) := MemheapSpec.Alloc(h, n);
            && MINIALLOC <= n && newSize <= n && !Live(h, NULL) && Wf(h1) && ptr != NULL
            && (q == NULL ==> h1 == h)
            && (q != NULL ==>
                var h' := MemheapSpec.Free(h1, ptr);
                && Changed(h, h1, NULL, q) && !Live(h, q) && Live(h1, q) && Live(h1, ptr) && q != ptr
                && SizeOf(h1, ptr) == oldSize && newSize <= SizeOf(h1, q)
                && Changed(h1, h', ptr, NULL) && Live(h', q) && SizeOf(h', q) == SizeOf(h1, q))
  {
    hide Wf, Live, SizeOf, MemheapSpec.Alloc, MemheapSpec.Free, Changed;
    var n := Request(4 * newSize);
    AllocSound(h, n);
    NullIsDead(h);
    var (h1, q) := MemheapSpec.Alloc(h, n);
    if q != NULL {
      ChangedCame(h, h1, NULL, q);
      FreeSound(h1, ptr);
      ChangedOther(h1, MemheapSpec.Free(h1, ptr), ptr, q);
    }
  }

  lemma {:induction false} ChangedOther(h: Heap, h': Heap, gone: int, q: int)
    requires Changed(h, h', gone, NULL) && Live(h, q) && q != gone && q != NULL
    ensures Live(h', q) && SizeOf(h', q) == SizeOf(h, q)
  {
    hide Live, SizeOf;
  }

  /** A move writes nothing of the other live blocks. */
  lemma {:induction false} MoveOthers(m0: Memory, m1: Memory, m2: Memory, m3: Memory, h: Heap, h1: Heap, h': Heap,
          ptr: int, q: int, n: int)
    requires Wf(h1) && OthersKept(m0, m1, h, NULL) && !Live(h, NULL)
    requires Changed(h, h1, NULL, q) && !Live(h, q) && Live(h1, q) && q != NULL && 0 <= n <= SizeOf(h1, q)
    requires forall x | !(q <= x < q + n) :: Word(m2, x) == Word(m1, x)
    requires Kept(m2, m3, h1, h') && Changed(h1, h', ptr, NULL)
    ensures OthersKept(m0, m3, h, ptr)
  {
    hide Wf, Live, SizeOf, Word;
    forall r, x | Live(h, r) && r != ptr && r <= x < r + SizeOf(h, r) ensures Word(m3, x) == Word(m0, x) {
      assert Live(h1, r) && SizeOf(h1, r) == SizeOf(h, r);
      DataApart(h1, q, r, x);
      ChangedOther(h1, h', ptr, r);
    }
  }

  /** What rt_memheap_realloc reads and ends with when it grows block `k` in place. */
  lemma {:induction false} GrowGuide(m: Memory, h: Heap, head: int, k: nat, n: int)
    requires Represents(m, h, head) && k + 1 < |h.blocks| && h.blocks[k].used && !h.blocks[k + 1].used
    requires h.blocks[k].size < n <= h.blocks[k].size + h.blocks[k + 1].size
    ensures var (m', h') := (GrowWords(m, head, h.blocks[k], h.blocks[k + 1], n), GrowAt(h, k, n));
            && Represents(m', h', head) && Kept(m, m', h, h')
            && h'.start == h.start && h'.pool == h.pool
            && h'.available == h.available - (n - h.blocks[k].size)
            && h'.maxUsed == Max(h.maxUsed, h.pool - h'.available)
  {
    hide Represents, Kept, Wf, GrowWords, Splice, Without;
    RepStage(m, h, head);
    Around(h, k);
    var p :| 0 <= p < |h.free| && h.free[p] == h.blocks[k + 1].addr;
    GrowAtKeeps(h, k, n);
    Around(h, k);
    GrowRep(m, h, head, k, n, p);
  }

  /** What rt_memheap_realloc reads and ends with when it shrinks block `k` in place. */
  lemma {:induction false} ShrinkGuide(m: Memory, h: Heap, head: int, k: nat, n: int)
    requires Represents(m, h, head) && k + 1 < |h.blocks| && h.blocks[k].used
    requires 0 <= n && n + HEADER <= h.blocks[k].size
    ensures var (b, h', nw, m4) :=
            (h.blocks, ShrinkAt(h, k, n), h.blocks[k].addr + HEADER + n, ShrinkWords(m, head, h.blocks, k, n));
            var m1 := Linked(Stamped(m, nw, head), b[k].addr, nw, NEXT);
            && Field(m1, nw, NEXT) == b[k + 1].addr
            && (Field(m1, b[k + 1].addr, MAGIC_AT) % 2 != 1) == (MergeTo(b, k) == k + 2)
            && (MergeTo(b, k) == k + 2 ==> Field(m1, b[k + 1].addr, NEXT) - b[k + 1].addr - HEADER == b[k + 1].size)
            && Represents(m4, h', head) && Kept(m, m4, h, h')
            && h'.available == h.available - (if MergeTo(b, k) == k + 2 then b[k + 1].size else 0)
                               + (Field(m4, nw, NEXT) - nw - HEADER)
            && h'.start == h.start && h'.pool == h.pool && h'.maxUsed == h.maxUsed
  {
    hide Represents, Kept, Wf, Stage, Listed, Linked, Stamped, Splice, Without, Field, ShrinkWords, Touched, Addrs,
         Outside;
    var (b, lo, hi, nw) := (h.blocks, h.start, h.start + h.pool, h.blocks[k].addr + HEADER + n);
    var m1 := Linked(Stamped(m, nw, head), b[k].addr, nw, NEXT);
    RepStage(m, h, head);
    ShrinkAtKeeps(h, k, n);
    ShrinkRep(m, h, head, k, n);
    CutStage(m, head, lo, hi, b, h.free, k, n);
    var c := Splice(b, k, k + 1, CutRun(b[k], n));
    SpliceAt(b, k, CutRun(b[k], n));
    assert c[k + 1] == CutRun(b[k], n)[1] && c[k + 2] == b[k + 1];
    StageRead(m1, head, lo, hi, c, h.free, k + 1);
    StageRead(m1, head, lo, hi, c, h.free, k + 2);
    Around(h, k);
    if !b[k + 1].used { CutNext(h, k, n); }
    ShrunkRead(ShrinkWords(m, head, b, k, n), ShrinkAt(h, k, n), head, h, k, n);
  }

  lemma {:induction false} CutNext(h: Heap, k: nat, n: int)
    requires Wf(h) && k + 2 < |h.blocks| && !h.blocks[k + 1].used
    ensures var c := Splice(h.blocks, k, k + 1, CutRun(h.blocks[k], n));
            k + 3 < |c| && c[k + 3].addr - h.blocks[k + 1].addr - HEADER == h.blocks[k + 1].size
  {
    Around(h, k + 1);
    var c := Splice(h.blocks, k, k + 1, CutRun(h.blocks[k], n));
    assert c[k + 3] == h.blocks[k + 2];
  }

  lemma {:induction false} ShrunkRead(m: Memory, h': Heap, head: int, h: Heap, k: nat, n: int)
    requires Represents(m, h', head) && k + 1 < |h.blocks| && h' == ShrinkAt(h, k, n)
    ensures var nw := h.blocks[k].addr + HEADER + n;
            Field(m, nw, NEXT) - nw - HEADER == ShrinkRun(h.blocks, k, n)[1].size
  {
    hide Represents, Wf, Stage, Listed, Outside, Field;
    RepStage(m, h', head);
    TailUsed(h');
    assert h'.blocks[k + 1] == ShrinkRun(h.blocks, k, n)[1];
    StageRead(m, head, h'.start, h'.start + h'.pool, h'.blocks, h'.free, k + 1);
    Around(h', k + 1);
  }

  /** The words rt_memheap_init writes: the free header, the one free item and the tail. */
  function InitWords(m: Memory, head: int, start: int, tail: int): Memory {
    var m1 := Stamped(m, head, head)[head + NEXT := NULL][head + PREV := NULL][head + NEXT_FREE := head]
        [head + PREV_FREE := head];
    var m2 := Stamped(m1, start, head)[start + NEXT := tail][start + PREV := tail];
    var m3 := Linked(m2, head, start, NEXT_FREE);
    Stamped(m3, tail, head)[tail + MAGIC_AT := MAGIC + 1][tail + NEXT := start][tail + PREV := start]
      [tail + NEXT_FREE := NULL][tail + PREV_FREE := NULL]
  }

  lemma {:induction false} InitPhys(m: Memory, head: int, start: int, tail: int)
    requires start + HEADER <= tail && Outside(head, start, tail + HEADER)
    ensures var m' := InitWords(m, head, start, tail);
            && Field(m', start, NEXT) == tail && Field(m', start, PREV) == tail
            && Field(m', tail, NEXT) == start && Field(m', tail, PREV) == start
  {
  }

  lemma {:induction false} InitFree(m: Memory, head: int, start: int, tail: int)
    requires start + HEADER <= tail && Outside(head, start, tail + HEADER)
    ensures var m' := InitWords(m, head, start, tail);
            && Field(m', head, NEXT_FREE) == start && Field(m', head, PREV_FREE) == start
            && Field(m', start, NEXT_FREE) == head && Field(m', start, PREV_FREE) == head
  {
  }

  lemma {:induction false} InitMarks(m: Memory, head: int, start: int, tail: int)
    requires start + HEADER <= tail && Outside(head, start, tail + HEADER)
    ensures var m' := InitWords(m, head, start, tail);
            && Field(m', start, MAGIC_AT) == MAGIC && Field(m', start, POOL_AT) == head
            && Field(m', tail, MAGIC_AT) == MAGIC + 1 && Field(m', tail, POOL_AT) == head
  {
  }

  lemma {:induction false} InitRings(m: Memory, head: int, start: int, tail: int)
    requires start + HEADER <= tail && Outside(head, start, tail + HEADER)
    ensures Shape(InitWords(m, head, start, tail), head, [start, tail], [false, true], [start])
  {
    hide InitWords, Field;
    InitPhys(m, head, start, tail);
    InitFree(m, head, start, tail);
    InitMarks(m, head, start, tail);
    assert [head] + [start] == [head, start];
  }

  lemma {:induction false} InitRep(m: Memory, head: int, start: int, pool: int)
    requires 0 < start && 2 * HEADER <= pool && Outside(head, start, start + pool)
    ensures Represents(InitWords(m, head, start, start + pool - HEADER), Init(start, pool), head)
    ensures var h := Init(start, pool);
            h.start == start && h.pool == pool && h.available == pool - 2 * HEADER && h.maxUsed == 2 * HEADER
  {
    hide Wf, InitWords, Shape;
    var h := Init(start, pool);
    InitSound(start, pool);
    AddrsOf2(h.blocks[0], h.blocks[1]);
    InitRings(m, head, start, start + pool - HEADER);
  }
}
