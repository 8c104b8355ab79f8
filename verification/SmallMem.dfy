/** src/mem.c on memory.

    Headers stand in front of the data they describe: `mem` maps byte offsets from heap_ptr to the values
    stored there, and the ghost field `heap` is the chain the headers form.  Every method is tied to the
    specification of the chain, and says that the data of the blocks in use is left alone. */
module SmallMem {
  import opened SmallMemSpec
  import opened SmallMemProps

  const HEAP_MAGIC := 0x1ea0

  // offsets in struct heap_mem
  const MAGIC := 0
  const USED := 2
  const NEXT := 4
  const PREV := 8

  type Memory = map<int, int>

  function Get(m: Memory, a: int): int { if a in m then m[a] else 0 }

  /** The header of block `i` says what the chain says. */
  ghost predicate Header(m: Memory, bs: seq<Block>, i: nat) {
    && i < |bs|
    && Get(m, bs[i].at + USED) == (if bs[i].used then 1 else 0)
    && Get(m, bs[i].at + NEXT) == Next(bs[i])
    && Get(m, bs[i].at + PREV) == (if i == 0 then 0 else bs[i - 1].at)
    && (bs[i].used ==> Get(m, bs[i].at + MAGIC) == HEAP_MAGIC)
  }

  ghost predicate Headers(m: Memory, bs: seq<Block>, end: nat) {
    && Chain(bs, end) && Get(m, end + USED) == 1 && Get(m, end + NEXT) == end
    && forall i: nat | i < |bs| :: Header(m, bs, i)
  }

  /** The data of block `b`. */
  predicate In(b: Block, a: int) { b.at + HEADER <= a < Next(b) }

  /** The data of every used block is untouched. */
  ghost predicate DataKept(m: Memory, m': Memory, bs: seq<Block>) {
    forall b: Block, a: int | b in bs && b.used && In(b, a) :: Get(m', a) == Get(m, a)
  }

  /** A header address, in the header at `o`. */
  predicate InHeader(o: nat, a: int) { o <= a < o + HEADER }

  /** The header at an edge of the chain is in nobody's data and, unless it is the same, in no other
      header. */
  lemma {:induction false} EdgesApart(bs: seq<Block>, end: nat, i: nat, j: nat)
    requires Chain(bs, end) && i < |bs| && j <= |bs| && i != j
    ensures bs[i].at + HEADER <= Edge(bs, end, j) || Edge(bs, end, j) + HEADER <= bs[i].at
  {
    if i < j { ChainMono(bs, end, i, j); } else { ChainMono(bs, end, j, i); }
  }

  lemma {:induction false} HeaderOutside(bs: seq<Block>, end: nat, i: nat, j: nat, a: int)
    requires Chain(bs, end) && i < |bs| && j <= |bs| && InHeader(Edge(bs, end, j), a)
    ensures !In(bs[i], a)
  {
    if i < j { ChainMono(bs, end, i, j); } else if j < i { ChainMono(bs, end, j, i); }
  }

  /** Writing a header field at an edge of the chain leaves all data alone. */
  lemma {:induction false} WriteKeeps(m: Memory, bs: seq<Block>, end: nat, j: nat, f: nat, v: int)
    requires Chain(bs, end) && j <= |bs| && f < HEADER
    ensures DataKept(m, m[Edge(bs, end, j) + f := v], bs)
  {
    var o := Edge(bs, end, j) + f;
    forall b: Block, a: int | b in bs && b.used && In(b, a) ensures Get(m[o := v], a) == Get(m, a) {
      var i :| 0 <= i < |bs| && bs[i] == b;
      if a == o { HeaderOutside(bs, end, i, j, a); }
    }
  }

  lemma {:induction false} KeptTwice(m: Memory, m1: Memory, m2: Memory, bs: seq<Block>)
    requires DataKept(m, m1, bs) && DataKept(m1, m2, bs)
    ensures DataKept(m, m2, bs)
  {
  }

  // ---- header updates ----

  function Join2(m: Memory, o: int, next: int): Memory { m[o + NEXT := next][next + PREV := o] }

  /** The header of one block after blocks `i` and `i + 1` are joined. */
  lemma {:induction false} JoinHeader(m: Memory, bs: seq<Block>, end: nat, i: nat, j: nat)
    requires Headers(m, bs, end) && i + 1 < |bs| && !bs[i].used && !bs[i + 1].used && j < |Join(bs, i)|
    ensures Header(Join2(m, bs[i].at, Next(bs[i + 1])), Join(bs, i), j)
  {
    hide Aligned;
    assert Linked(bs, end, i) && Linked(bs, end, i + 1);
    JoinPlaces(bs, i);
    var k := if j <= i then j else j + 1;
    assert Header(m, bs, k) && Header(m, bs, i);
    ChainMono(bs, end, i, i + 2);
    if k != i { EdgesApart(bs, end, k, i); }
    if k != i + 2 { EdgesApart(bs, end, k, i + 2); }
  }

  lemma {:induction false} JoinHeaders(m: Memory, bs: seq<Block>, end: nat, i: nat)
    requires Headers(m, bs, end) && i + 1 < |bs| && !bs[i].used && !bs[i + 1].used
    ensures Next(bs[i + 1]) == Edge(bs, end, i + 2)
    ensures Headers(Join2(m, bs[i].at, Next(bs[i + 1])), Join(bs, i), end)
    ensures DataKept(m, Join2(m, bs[i].at, Next(bs[i + 1])), bs)
  {
    hide Extent, Aligned, DataKept, Header, Join;
    assert Linked(bs, end, i) && Linked(bs, end, i + 1);
    JoinSound(bs, end, i);
    var (r, o, next) := (Join(bs, i), bs[i].at, Next(bs[i + 1]));
    var m1 := m[o + NEXT := next];
    var m' := Join2(m, o, next);
    WriteKeeps(m, bs, end, i, NEXT, next);
    WriteKeeps(m1, bs, end, i + 2, PREV, o);
    KeptTwice(m, m1, m', bs);
    ChainMono(bs, end, i, |bs|);
    if i + 2 < |bs| { ChainMono(bs, end, i + 2, |bs|); }
    forall j: nat | j < |r| ensures Header(m', r, j) { JoinHeader(m, bs, end, i, j); }
  }

  lemma {:induction false} MarkHeaders(m: Memory, bs: seq<Block>, end: nat, i: nat, used: bool)
    requires Headers(m, bs, end) && i < |bs| && bs[i].used != used
    ensures var m' := m[bs[i].at + USED := if used then 1 else 0][bs[i].at + MAGIC := if used then HEAP_MAGIC else 0];
            Headers(m', Mark(bs, i, used), end) && DataKept(m, m', bs)
  {
    hide Extent, Aligned, DataKept;
    MarkSound(bs, end, i, used);
    var (r, o) := (Mark(bs, i, used), bs[i].at);
    var m1 := m[o + USED := if used then 1 else 0];
    var m' := m1[o + MAGIC := if used then HEAP_MAGIC else 0];
    WriteKeeps(m, bs, end, i, USED, if used then 1 else 0);
    WriteKeeps(m1, bs, end, i, MAGIC, if used then HEAP_MAGIC else 0);
    KeptTwice(m, m1, m', bs);
    ChainMono(bs, end, i, |bs|);
    forall j: nat | j < |r| ensures Header(m', r, j) {
      assert Header(m, bs, j);
      if j != i { EdgesApart(bs, end, j, i); }
    }
  }

  /** The memory after block at `o` is cut at `o2`; the block behind, at `next`, is told unless it is heap_end. */
  function Cut2(m: Memory, o: int, o2: int, next: int, end: int): Memory {
    var m1 := m[o2 + USED := 0][o2 + NEXT := next][o2 + PREV := o][o + NEXT := o2];
    if next != end then m1[next + PREV := o2] else m1
  }

  lemma {:induction false} CutHeaders(m: Memory, bs: seq<Block>, end: nat, i: nat, s: nat)
    requires Headers(m, bs, end) && i < |bs| && s + HEADER <= bs[i].size && Aligned(s)
    ensures var m' := Cut2(m, bs[i].at, bs[i].at + HEADER + s, Next(bs[i]), end);
            Headers(m', Cut(bs, i, s), end) && DataKept(m, m', Cut(bs, i, s))
  {
    hide Extent, Aligned, DataKept, Cut2;
    CutSound(bs, end, i, s);
    CutPlaces(bs, i, s);
    CutData(m, bs, end, i, s);
    assert Linked(bs, end, i);
    var (r, o, o2, next) := (Cut(bs, i, s), bs[i].at, bs[i].at + HEADER + s, Next(bs[i]));
    var m' := Cut2(m, o, o2, next, end);
    forall j: nat | j < |r| ensures Header(m', r, j) { CutHeader(m, bs, end, i, s, j); }
    CutEnd(m, bs, end, i, s);
  }

  lemma {:induction false} CutHeader(m: Memory, bs: seq<Block>, end: nat, i: nat, s: nat, j: nat)
    requires Headers(m, bs, end) && i < |bs| && s + HEADER <= bs[i].size && Aligned(s) && j <= |bs|
    ensures Header(Cut2(m, bs[i].at, bs[i].at + HEADER + s, Next(bs[i]), end), Cut(bs, i, s), j)
  {
    hide Extent, Aligned, Cut2, Cut;
    CutSound(bs, end, i, s);
    CutPlaces(bs, i, s);
    assert Linked(bs, end, i);
    var r := Cut(bs, i, s);
    if j != i + 1 { assert Header(m, bs, if j <= i then j else j - 1); }
    if j != i { EdgesApart(r, end, j, i); }
    if j != i + 1 { EdgesApart(r, end, j, i + 1); }
    if j != i + 2 { EdgesApart(r, end, j, i + 2); }
    if i + 1 < |bs| { ChainOrder(bs, end, i); }
    Cut2Reads(m, bs[i].at, bs[i].at + HEADER + s, Next(bs[i]), end, r[j].at);
  }

  lemma {:induction false} Cut2Reads(m: Memory, o: nat, o2: nat, next: nat, end: nat, x: nat)
    requires o + HEADER <= o2 && o2 + HEADER <= next
    requires forall y | y in [o, o2, next] :: x == y || x + HEADER <= y || y + HEADER <= x
    ensures var m' := Cut2(m, o, o2, next, end);
            && Get(m', x + USED) == (if x == o2 then 0 else Get(m, x + USED))
            && Get(m', x + NEXT) == (if x == o2 then next else if x == o then o2 else Get(m, x + NEXT))
            && Get(m', x + PREV) == (if x == o2 then o else if x == next && next != end then o2 else Get(m, x + PREV))
            && Get(m', x + MAGIC) == Get(m, x + MAGIC)
  {
    assert o in [o, o2, next] && o2 in [o, o2, next] && next in [o, o2, next];
  }

  lemma {:induction false} CutEnd(m: Memory, bs: seq<Block>, end: nat, i: nat, s: nat)
    requires Chain(bs, end) && i < |bs| && s + HEADER <= bs[i].size
    ensures var m' := Cut2(m, bs[i].at, bs[i].at + HEADER + s, Next(bs[i]), end);
            Get(m', end + USED) == Get(m, end + USED) && Get(m', end + NEXT) == Get(m, end + NEXT)
  {
    ChainMono(bs, end, i, |bs|);
    assert Linked(bs, end, i);
    if i + 1 < |bs| { ChainMono(bs, end, i + 1, |bs|); }
  }

  lemma {:induction false} CutData(m: Memory, bs: seq<Block>, end: nat, i: nat, s: nat)
    requires Chain(bs, end) && i < |bs| && s + HEADER <= bs[i].size && Aligned(s)
    ensures DataKept(m, Cut2(m, bs[i].at, bs[i].at + HEADER + s, Next(bs[i]), end), Cut(bs, i, s))
  {
    hide Extent, Aligned, DataKept;
    CutSound(bs, end, i, s);
    CutPlaces(bs, i, s);
    assert Linked(bs, end, i);
    var (r, o, o2, next) := (Cut(bs, i, s), bs[i].at, bs[i].at + HEADER + s, Next(bs[i]));
    var m1 := m[o2 + USED := 0];
    var m2 := m1[o2 + NEXT := next];
    var m3 := m2[o2 + PREV := o];
    var m4 := m3[o + NEXT := o2];
    WriteKeeps(m, r, end, i + 1, USED, 0);
    WriteKeeps(m1, r, end, i + 1, NEXT, next);
    WriteKeeps(m2, r, end, i + 1, PREV, o);
    WriteKeeps(m3, r, end, i, NEXT, o2);
    WriteKeeps(m4, r, end, i + 2, PREV, o2);
    KeptTwice(m, m1, m2, r);
    KeptTwice(m, m2, m3, r);
    KeptTwice(m, m3, m4, r);
    KeptTwice(m, m4, m4[next + PREV := o2], r);
  }

  // ---- reading headers ----

  /** What the headers around block `i` hold. */
  lemma {:induction false} Behind(m: Memory, bs: seq<Block>, end: nat, i: nat)
    requires Headers(m, bs, end) && i < |bs|
    ensures Chain(bs, end) && Get(m, end + USED) == 1 && bs[i].at < end
    ensures Get(m, bs[i].at + USED) == (if bs[i].used then 1 else 0) && Get(m, bs[i].at + NEXT) == Next(bs[i])
    ensures Next(bs[i]) == Edge(bs, end, i + 1) && bs[i].at < Edge(bs, end, i + 1) <= end
    ensures Get(m, bs[i].at + PREV) == (if i == 0 then 0 else bs[i - 1].at) && (i == 0 ==> bs[i].at == 0)
    ensures bs[i].used ==> Get(m, bs[i].at + MAGIC) == HEAP_MAGIC
    ensures i > 0 ==> bs[i - 1].at < bs[i].at && Get(m, bs[i - 1].at + USED) == (if bs[i - 1].used then 1 else 0)
    ensures i + 1 < |bs| ==> bs[i + 1].at < end && Get(m, bs[i + 1].at + USED) == (if bs[i + 1].used then 1 else 0)
  {
    hide Aligned;
    assert Header(m, bs, i) && Linked(bs, end, i);
    ChainMono(bs, end, i, |bs|);
    if i > 0 { assert Header(m, bs, i - 1); ChainOrder(bs, end, i - 1); }
    if i + 1 < |bs| { assert Header(m, bs, i + 1); ChainOrder(bs, end, i); }
  }

  lemma {:induction false} NextIs(b: Block)
    ensures Next(b) == b.at + HEADER + b.size
  {
  }

  lemma {:induction false} LowestAt(h: Heap)
    requires Wf(h)
    ensures h.lfree == Edge(h.blocks, End(h), IndexOf(h.blocks, h.lfree))
  {
    hide Extent, Aligned;
    if h.lfree == End(h) {
      IndexEnd(h.blocks, End(h));
    } else {
      var j :| 0 <= j < |h.blocks| && h.blocks[j].at == h.lfree && !h.blocks[j].used;
      IndexUpto(h.blocks, h.lfree, j);
    }
  }

  // ---- data ----

  lemma {:induction false} KeptSelf(m: Memory, bs: seq<Block>)
    ensures DataKept(m, m, bs)
  {
  }

  lemma {:induction false} KeptSame(m: Memory, m': Memory, bs: seq<Block>, cs: seq<Block>)
    requires DataKept(m, m', bs) && SameUsed(cs, bs)
    ensures DataKept(m, m', cs)
  {
  }

  lemma {:induction false} UsedSelf(bs: seq<Block>)
    ensures SameUsed(bs, bs)
  {
  }

  /** Every used block of `cs` is in `bs`. */
  ghost predicate Within(cs: seq<Block>, bs: seq<Block>) { forall b: Block | b in cs && b.used :: b in bs }

  lemma {:induction false} KeptWithin(m: Memory, m': Memory, bs: seq<Block>, cs: seq<Block>)
    requires DataKept(m, m', bs) && Within(cs, bs)
    ensures DataKept(m, m', cs)
  {
  }

  lemma {:induction false} WithinSelf(bs: seq<Block>)
    ensures Within(bs, bs)
  {
  }

  lemma {:induction false} CutWithin(bs: seq<Block>, i: nat, s: nat)
    requires i < |bs| && !bs[i].used && s + HEADER <= bs[i].size
    ensures Within(bs, Cut(bs, i, s))
  {
    hide Cut;
    CutPlaces(bs, i, s);
    forall b: Block | b in bs && b.used ensures b in Cut(bs, i, s) {
      var j :| 0 <= j < |bs| && bs[j] == b;
      assert Cut(bs, i, s)[if j < i then j else j + 1] == b;
    }
  }

  /** The data of every used block but the one at `p` is untouched. */
  ghost predicate OthersKept(m: Memory, m': Memory, bs: seq<Block>, p: Ptr) {
    forall b: Block, a: int | b in bs && b.used && p != At(b.at + HEADER) && In(b, a) :: Get(m', a) == Get(m, a)
  }

  lemma {:induction false} KeptOthers(m: Memory, m': Memory, bs: seq<Block>, p: Ptr)
    requires DataKept(m, m', bs)
    ensures OthersKept(m, m', bs, p)
  {
  }

  lemma {:induction false} OthersThrough(m0: Memory, m1: Memory, m2: Memory, bs: seq<Block>, cs: seq<Block>, b: Block,
          p: Ptr)
    requires DataKept(m0, m1, bs) && DataKept(m1, m2, cs) && p == At(b.at + HEADER)
    requires forall c: Block | c.used :: c in cs <==> c in bs && c != b
    ensures OthersKept(m0, m2, bs, p)
  {
  }

  /** The data size of the block behind `p`. */
  function SizeOf(h: Heap, p: Ptr): nat {
    if BlockOf(h, p) < |h.blocks| then h.blocks[BlockOf(h, p)].size else 0
  }

  function Byte(m: Memory, base: int, k: int): int { Get(m, base + k) }

  /** The `len` bytes at `src` of `m` stand at `dst` of `m'`. */
  ghost predicate Copied(m: Memory, m': Memory, src: nat, dst: nat, len: nat) {
    forall k | 0 <= k < len :: Byte(m', dst, k) == Byte(m, src, k)
  }

  lemma {:induction false} CopiedSelf(m: Memory, p: nat, len: nat)
    ensures Copied(m, m, p, p, len)
  {
  }

  /** Changes inside the data of one block leave the headers alone. */
  lemma {:induction false} HeadersData(m: Memory, m': Memory, bs: seq<Block>, end: nat, i: nat)
    requires Headers(m, bs, end) && i < |bs| && forall a: int | !In(bs[i], a) :: Get(m', a) == Get(m, a)
    ensures Headers(m', bs, end)
  {
    hide Aligned, In;
    forall j: nat | j < |bs| ensures Header(m', bs, j) {
      assert Header(m, bs, j);
      HeaderWords(bs, end, i, j);
    }
    HeaderWords(bs, end, i, |bs|);
  }

  lemma {:induction false} HeaderWords(bs: seq<Block>, end: nat, i: nat, j: nat)
    requires Chain(bs, end) && i < |bs| && j <= |bs|
    ensures var o := Edge(bs, end, j);
            !In(bs[i], o + USED) && !In(bs[i], o + NEXT) && !In(bs[i], o + PREV) && !In(bs[i], o + MAGIC)
  {
    var o := Edge(bs, end, j);
    HeaderOutside(bs, end, i, j, o + USED);
    HeaderOutside(bs, end, i, j, o + NEXT);
    HeaderOutside(bs, end, i, j, o + PREV);
    HeaderOutside(bs, end, i, j, o + MAGIC);
  }

  lemma {:induction false} MarkPlace(bs: seq<Block>, i: nat, used: bool)
    requires i < |bs|
    ensures var r := Mark(bs, i, used); |r| == |bs| && r[i].at == bs[i].at && r[i].used == used
  {
  }

  lemma {:induction false} ShrunkData(h: Heap, i: nat, r: nat, m: Memory, m': Memory, p: Ptr)
    requires Wf(h) && i < |h.blocks| && h.blocks[i].used && r + HEADER <= h.blocks[i].size
             && p == At(h.blocks[i].at + HEADER)
    requires DataKept(m, m', Cut(h.blocks, i, r))
    ensures OthersKept(m, m', h.blocks, p) && Copied(m, m', p.off, p.off, r)
  {
    hide Extent, Chain, Cut, Aligned, Apart, FreeAt;
    CutBlocks(h, i, r);
    CutPlaces(h.blocks, i, r);
    var b := h.blocks[i].(size := r);
    assert b in Cut(h.blocks, i, r);
    forall k | 0 <= k < r ensures Byte(m', p.off, k) == Byte(m, p.off, k) { assert In(b, p.off + k); }
  }

  /** Moving a block: copy into the new one, then free the old one. */
  lemma {:induction false} MovedData(h: Heap, h1: Heap, p: Ptr, q: Ptr, i: nat, j: nat, len: nat,
                                     m0: Memory, m1: Memory, m2: Memory, m3: Memory)
    requires Wf(h1) && i < |h.blocks| && h.blocks[i].used && p == At(h.blocks[i].at + HEADER)
    requires j < |h1.blocks| && h1.blocks[j].used && q == At(h1.blocks[j].at + HEADER) && q != p
    requires len <= h.blocks[i].size && len <= h1.blocks[j].size
    requires Undisturbed(h, h1, Null) && (forall c: Block | c in h.blocks && c.used :: q != At(c.at + HEADER))
    requires DataKept(m0, m1, h.blocks)
    requires Copied(m1, m2, p.off, q.off, len) && forall a: int | !In(h1.blocks[j], a) :: Get(m2, a) == Get(m1, a)
    requires OthersKept(m2, m3, h1.blocks, p)
    ensures OthersKept(m0, m3, h.blocks, p) && Copied(m0, m3, p.off, q.off, len)
  {
    hide Extent, Chain, Aligned, Apart, FreeAt;
    var (b, c) := (h.blocks[i], h1.blocks[j]);
    forall k | 0 <= k < len ensures Byte(m3, q.off, k) == Byte(m0, p.off, k) {
      assert In(b, p.off + k) && In(c, q.off + k);
      assert Byte(m2, q.off, k) == Byte(m1, p.off, k);
    }
    forall d: Block, a: int | d in h.blocks && d.used && p != At(d.at + HEADER) && In(d, a)
      ensures Get(m3, a) == Get(m0, a)
    {
      assert d in h1.blocks;
      var k :| 0 <= k < |h1.blocks| && h1.blocks[k] == d;
      DataApart(h1.blocks, End(h1), j, k, a);
    }
  }

  lemma {:induction false} DataApart(bs: seq<Block>, end: nat, i: nat, j: nat, a: int)
    requires Chain(bs, end) && i < |bs| && j < |bs| && i != j && In(bs[j], a)
    ensures !In(bs[i], a)
  {
    if i < j { ChainMono(bs, end, i, j); } else { ChainMono(bs, end, j, i); }
  }

  // ---- the allocator ----

  class SmallHeap {
    const msa: nat
    var mem: Memory
    var lfree: nat
    var used: nat
    var max: nat
    ghost var heap: Heap

    ghost predicate Counts()
      reads this
    {
      lfree == heap.lfree && used == heap.used && max == heap.max && msa == heap.msa
    }

    ghost predicate Valid()
      reads this
    {
      Counts() && Wf(heap) && Headers(mem, heap.blocks, End(heap))
    }

    /** rt_system_heap_init, for an area with room for one least block. */
    constructor (msa: nat)
      requires MIN_ALIGNED <= msa < WORD - HEADER && Aligned(msa)
      ensures Valid() && heap == Init(msa)
    {
      this.msa, lfree, used, max := msa, 0, 0, 0;
      var end := msa + HEADER;
      mem := map[MAGIC := HEAP_MAGIC, NEXT := end, PREV := 0, USED := 0,
                 end + MAGIC := HEAP_MAGIC, end + USED := 1, end + NEXT := end, end + PREV := end];
      heap := Init(msa);
      InitSound(msa);
    }

    /** plug_holes on the free block `i` at `o`, with `bs` the chain on entry. */
    method PlugHoles(o: nat, ghost bs: seq<Block>, ghost i: nat)
      requires Headers(mem, bs, msa + HEADER) && i < |bs| && bs[i].at == o && !bs[i].used
      modifies this`mem, this`lfree
      ensures var (bs', l') := Plug(bs, old(lfree), i);
              lfree == l' && Headers(mem, bs', msa + HEADER) && DataKept(old(mem), mem, bs)
    {
      hide DataKept, Forward, Backward, SameUsed, Headers;
      ghost var m0 := mem;
      JoinNext(o, bs, i);
      ghost var m1, bs1 := mem, Forward(bs, old(lfree), i).0;
      JoinPrev(o, bs1, i);
      KeptSame(m1, mem, bs1, bs);
      KeptTwice(m0, m1, mem, bs);
    }

    /** Merge forward. */
    method JoinNext(o: nat, ghost bs: seq<Block>, ghost i: nat)
      requires Headers(mem, bs, msa + HEADER) && i < |bs| && bs[i].at == o && !bs[i].used
      modifies this`mem, this`lfree
      ensures var (bs', l') := Forward(bs, old(lfree), i);
              && lfree == l' && Headers(mem, bs', msa + HEADER) && DataKept(old(mem), mem, bs) && SameUsed(bs, bs')
              && i < |bs'| && bs'[i].at == o && !bs'[i].used
    {
      hide DataKept, Join, Aligned, Next, SameUsed, Headers, Chain, FreeAt;
      ghost var end := msa + HEADER;
      Behind(mem, bs, end, i);
      KeptSelf(mem, bs);
      var n := Get(mem, o + NEXT);
      if o != n && Get(mem, n + USED) == 0 && n != msa + HEADER {
        JoinHeaders(mem, bs, end, i);
        Behind(mem, bs, end, i + 1);
        JoinPlaces(bs, i);
        JoinBlocks(bs, i);
        if lfree == n { lfree := o; }
        var nn := Get(mem, n + NEXT);
        mem := mem[o + NEXT := nn];
        mem := mem[nn + PREV := o];
      } else {
        UsedSelf(bs);
      }
    }

    /** Merge backward. */
    method JoinPrev(o: nat, ghost bs: seq<Block>, ghost i: nat)
      requires Headers(mem, bs, msa + HEADER) && i < |bs| && bs[i].at == o && !bs[i].used
      modifies this`mem, this`lfree
      ensures var (bs', l') := Backward(bs, old(lfree), i);
              lfree == l' && Headers(mem, bs', msa + HEADER) && DataKept(old(mem), mem, bs)
    {
      hide DataKept, Join, Aligned, Next, SameUsed, Headers, Chain, FreeAt;
      ghost var end := msa + HEADER;
      Behind(mem, bs, end, i);
      KeptSelf(mem, bs);
      var p := Get(mem, o + PREV);
      if p != o && Get(mem, p + USED) == 0 {
        JoinHeaders(mem, bs, end, i - 1);
        if lfree == o { lfree := p; }
        var nn := Get(mem, o + NEXT);
        mem := mem[p + NEXT := nn];
        mem := mem[nn + PREV := p];
      }
    }

    /** A new free block at `ptr2`, between the block at `ptr` and the one behind it. */
    method CutHere(ptr: nat, ptr2: nat)
      modifies this`mem
      ensures mem == Cut2(old(mem), ptr, ptr2, Get(old(mem), ptr + NEXT), msa + HEADER)
    {
      var next := Get(mem, ptr + NEXT);
      mem := mem[ptr2 + USED := 0];
      mem := mem[ptr2 + NEXT := next];
      mem := mem[ptr2 + PREV := ptr];
      mem := mem[ptr + NEXT := ptr2];
      if next != msa + HEADER { mem := mem[next + PREV := ptr2]; }
    }

    /** rt_malloc, once it has found block `i` at `ptr`. */
    method TakeBlock(ptr: nat, size: nat, ghost i: nat)
      requires Valid() && i < |heap.blocks| && heap.blocks[i].at == ptr && !heap.blocks[i].used
      requires size <= heap.blocks[i].size && Aligned(size)
      modifies this
      ensures Valid() && heap == Take(old(heap), i, size) && DataKept(old(mem), mem, old(heap).blocks)
    {
      hide DataKept, Aligned, Next, Chain, Extent, Apart, FirstFree, FreeAt, Headers, Cut, Mark, Cut2;
      ghost var (h, bs, end, m0) := (heap, heap.blocks, End(heap), mem);
      Behind(mem, bs, end, i);
      NextIs(bs[i]);
      TakeSound(h, i, size);
      var next := Get(mem, ptr + NEXT);
      ghost var cut := bs;
      WithinSelf(bs);
      KeptSelf(m0, bs);
      if next - (ptr + HEADER) >= size + HEADER + MIN_ALIGNED {
        var ptr2 := ptr + HEADER + size;
        CutHeaders(mem, bs, end, i, size);
        CutPlaces(bs, i, size);
        CutWithin(bs, i, size);
        cut := Cut(bs, i, size);
        CutHere(ptr, ptr2);
        KeptWithin(m0, mem, cut, bs);
        used := used + size + HEADER;
      } else {
        used := used + next - ptr;
      }
      if max < used { max := used; }
      ghost var m1 := mem;
      MarkHeaders(m1, cut, end, i, true);
      mem := mem[ptr + USED := 1];
      mem := mem[ptr + MAGIC := HEAP_MAGIC];
      KeptWithin(m1, mem, cut, bs);
      KeptTwice(m0, m1, mem, bs);
      heap := Take(h, i, size);
      MarkPlace(cut, i, true);
      assert heap.blocks == Mark(cut, i, true);
      if ptr == lfree { NextFree(i); }
    }

    /** The loop that moves `lfree` on to the next free block. */
    method NextFree(ghost i: nat)
      requires Headers(mem, heap.blocks, msa + HEADER) && i < |heap.blocks| && lfree == heap.blocks[i].at
               && msa == heap.msa
      modifies this`lfree
      ensures lfree == FirstFree(heap.blocks, i, End(heap))
    {
      hide Next, Aligned, Headers;
      ghost var bs, end, j := heap.blocks, msa + HEADER, i;
      while Get(mem, lfree + USED) != 0 && lfree != msa + HEADER
        invariant i <= j <= |bs| && lfree == Edge(bs, end, j) && FirstFree(bs, j, end) == FirstFree(bs, i, end)
        decreases |bs| - j
      {
        Behind(mem, bs, end, j);
        lfree := Get(mem, lfree + NEXT);
        j := j + 1;
      }
      if j < |bs| { Behind(mem, bs, end, j); }
    }

    method Malloc(n: nat) returns (p: Ptr)
      requires Valid() && n < WORD
      modifies this
      ensures Valid() && (heap, p) == SmallMemSpec.Malloc(old(heap), n) && DataKept(old(mem), mem, old(heap).blocks)
    {
      hide DataKept, Aligned, Next, Chain, Extent, Apart, FreeAt, Header, Headers, Take, Round;
      KeptSelf(mem, heap.blocks);
      RoundIs(n);
      if n == 0 { return Null; }
      var size := Round(n);
      if size > msa { return Null; }
      if size < MIN_ALIGNED { size := MIN_ALIGNED; }
      ghost var (bs, end, i) := (heap.blocks, End(heap), IndexOf(heap.blocks, heap.lfree));
      LowestAt(heap);
      var ptr := lfree;
      while ptr < msa - size
        invariant Valid() && heap == old(heap) && mem == old(mem) && i <= |bs| && ptr == Edge(bs, end, i)
        invariant Search(bs, i, size, msa - size) == Search(bs, IndexOf(bs, old(heap).lfree), size, msa - size)
        decreases |bs| - i
      {
        Behind(mem, bs, end, i);
        NextIs(bs[i]);
        if Get(mem, ptr + USED) == 0 && Get(mem, ptr + NEXT) - (ptr + HEADER) >= size {
          TakeBlock(ptr, size, i);
          return At(ptr + HEADER);
        }
        ptr := Get(mem, ptr + NEXT);
        i := i + 1;
      }
      return Null;
    }

    /** rt_free. */
    method Free(p: Ptr)
      requires Valid() && Given(heap, p)
      modifies this
      ensures Valid() && heap == SmallMemProps.Free(old(heap), p) && OthersKept(old(mem), mem, old(heap).blocks, p)
    {
      hide DataKept, Aligned, Next, Chain, Extent, Apart, FreeAt, Header, Headers, Mark, Plug, Low;
      ghost var (h, bs, end, m0) := (heap, heap.blocks, End(heap), mem);
      if p.Null? || p.off >= msa + HEADER { return; }
      LiveBlock(h, p);
      FreeSound(h, p);
      ghost var i := BlockOf(h, p);
      var o := p.off - HEADER;
      Behind(mem, bs, end, i);
      NextIs(bs[i]);
      MarkHeaders(mem, bs, end, i, false);
      UnmarkSound(h, i);
      MarkPlace(bs, i, false);
      var next := Get(mem, o + NEXT);
      mem := mem[o + USED := 0];
      mem := mem[o + MAGIC := 0];
      if o < lfree { lfree := o; }
      used := used - (next - o);
      ghost var m1 := mem;
      PlugHoles(o, Mark(bs, i, false), i);
      heap := SmallMemProps.Free(h, p);
      OthersThrough(m0, m1, mem, bs, Mark(bs, i, false), bs[i], p);
    }

    /** rt_memcpy of `len` bytes into the data of block `i`. */
    method Copy(dst: nat, src: nat, len: nat, ghost i: nat)
      requires Valid() && i < |heap.blocks| && dst == heap.blocks[i].at + HEADER && len <= heap.blocks[i].size
      requires src + len <= dst || dst + heap.blocks[i].size <= src
      modifies this`mem
      ensures Valid() && Copied(old(mem), mem, src, dst, len)
      ensures forall a: int | !In(heap.blocks[i], a) :: Get(mem, a) == Get(old(mem), a)
    {
      hide Headers, Wf;
      var k := 0;
      while k < len
        invariant k <= len && Copied(old(mem), mem, src, dst, k)
        invariant forall a: int | !In(heap.blocks[i], a) :: Get(mem, a) == Get(old(mem), a)
      {
        mem := mem[dst + k := Get(mem, src + k)];
        k := k + 1;
      }
      HeadersData(old(mem), mem, heap.blocks, End(heap), i);
    }

    /** rt_realloc: the first bytes, as many as both blocks hold, are the same after, and so is the data
        of every other block. */
    method Realloc(p: Ptr, n: nat) returns (q: Ptr)
      requires Valid() && n < WORD && Given(heap, p)
      modifies this
      ensures Valid() && (heap, q) == SmallMemProps.Realloc(old(heap), p, n)
      ensures OthersKept(old(mem), mem, old(heap).blocks, p)
      ensures q.Null? ==> DataKept(old(mem), mem, old(heap).blocks)
      ensures q.At? && Live(old(heap), p) ==>
                var size := SizeOf(old(heap), p);
                Copied(old(mem), mem, p.off, q.off, if size < Round(n) then size else Round(n))
    {
      hide DataKept, Aligned, Chain, Extent, Apart, FreeAt, Header, Headers, Round, SmallMemSpec.Malloc,
           SmallMemProps.Free, Shrink, Low, Copied, OthersKept;
      RoundIs(n);
      ghost var (h, m0) := (heap, mem);
      KeptSelf(mem, h.blocks);
      KeptOthers(m0, m0, h.blocks, p);
      if Live(h, p) {
        LiveBlock(h, p);
        CopiedSelf(mem, p.off, Round(n));
      }
      var newsize := Round(n);
      if newsize > msa { return Null; }
      if p.Null? {
        q := Malloc(newsize);
        KeptOthers(m0, mem, h.blocks, p);
        return;
      }
      if p.off >= msa + HEADER { return p; }
      LiveBlock(h, p);
      ghost var i := BlockOf(h, p);
      Behind(mem, h.blocks, End(h), i);
      var o := p.off - HEADER;
      var size := Get(mem, o + NEXT) - o - HEADER;
      if size == newsize { return p; }
      if newsize + HEADER + MIN_SIZE < size {
        Split(o, newsize, i);
        return p;
      }
      MallocLive(h, newsize, p);
      MallocTarget(h, newsize);
      q := Malloc(newsize);
      KeptOthers(m0, mem, h.blocks, p);
      if q.At? { Move(p, q, if size < newsize then size else newsize, h, m0); }
    }

    /** The split of rt_realloc: block `i` at `o` keeps `r` bytes. */
    method Split(o: nat, r: nat, ghost i: nat)
      requires Valid() && i < |heap.blocks| && heap.blocks[i].used && heap.blocks[i].at == o
      requires Aligned(r) && Splits(heap.blocks[i], r)
      modifies this
      ensures Valid() && r + HEADER <= old(heap).blocks[i].size && old(heap).used >= old(heap).blocks[i].size
      ensures heap == Shrink(old(heap), i, r)
      ensures OthersKept(old(mem), mem, old(heap).blocks, At(o + HEADER))
              && Copied(old(mem), mem, o + HEADER, o + HEADER, r)
    {
      hide DataKept, Aligned, Next, Chain, Extent, Apart, FreeAt, Headers, Cut, Plug, Low, OthersKept, Copied, Cut2;
      ghost var (h, bs, end, m0) := (heap, heap.blocks, End(heap), mem);
      ShrinkRoom(h, i, r);
      ShrinkSound(h, i, r);
      Behind(mem, bs, end, i);
      NextIs(bs[i]);
      CutHeaders(mem, bs, end, i, r);
      CutPlaces(bs, i, r);
      var next := Get(mem, o + NEXT);
      used := used - (next - o - HEADER - r);
      var ptr2 := o + HEADER + r;
      CutHere(o, ptr2);
      ghost var cut, m1 := Cut(bs, i, r), mem;
      MagicHeaders(m1, cut, end, i + 1);
      mem := mem[ptr2 + MAGIC := HEAP_MAGIC];
      ghost var m2 := mem;
      KeptTwice(m0, m1, m2, cut);
      PlugHoles(ptr2, cut, i + 1);
      KeptTwice(m0, m2, mem, cut);
      heap := Shrink(h, i, r);
      ShrunkData(h, i, r, m0, mem, At(o + HEADER));
    }

    /** The move of rt_realloc, from `p` into the fresh block at `q`. */
    method Move(p: Ptr, q: Ptr, len: nat, ghost h: Heap, ghost m0: Memory)
      requires Valid() && Live(heap, p) && Wf(h) && Live(h, p) && q.At? && q != p
      requires len <= SizeOf(h, p) && Holds(heap, q, len) && Undisturbed(h, heap, Null)
      requires forall c: Block | c in h.blocks && c.used :: q != At(c.at + HEADER)
      requires DataKept(m0, mem, h.blocks)
      modifies this
      ensures Valid() && heap == SmallMemProps.Free(old(heap), p)
      ensures OthersKept(m0, mem, h.blocks, p) && Copied(m0, mem, p.off, q.off, len)
    {
      hide DataKept, Aligned, Next, Chain, Extent, Apart, FreeAt, Header, Headers, Low, OthersKept, Copied, Undisturbed,
           SmallMemProps.Free, In;
      LiveBlock(h, p);
      LiveBlock(heap, p);
      ghost var h1, m1 := heap, mem;
      ghost var i := BlockOf(h, p);
      ghost var j :| 0 <= j < |heap.blocks| && heap.blocks[j].used && heap.blocks[j].at + HEADER == q.off
                     && len <= heap.blocks[j].size;
      SameBlock(h, h1, p);
      SourceApart(h1, BlockOf(h1, p), j, len);
      Copy(q.off, p.off, len, j);
      ghost var m2 := mem;
      Free(p);
      MovedData(h, h1, p, q, i, j, len, m0, m1, m2, mem);
    }
  }

  /** Writing the magic number of a free block changes nothing that matters. */
  lemma {:induction false} MagicHeaders(m: Memory, bs: seq<Block>, end: nat, i: nat)
    requires Headers(m, bs, end) && i < |bs| && !bs[i].used
    ensures Headers(m[bs[i].at + MAGIC := HEAP_MAGIC], bs, end) && DataKept(m, m[bs[i].at + MAGIC := HEAP_MAGIC], bs)
  {
    hide Aligned, DataKept;
    WriteKeeps(m, bs, end, i, MAGIC, HEAP_MAGIC);
    ChainMono(bs, end, i, |bs|);
    var m' := m[bs[i].at + MAGIC := HEAP_MAGIC];
    forall j: nat | j < |bs| ensures Header(m', bs, j) {
      assert Header(m, bs, j);
      if j != i { EdgesApart(bs, end, j, i); }
    }
  }

  /** A block in use is the same block after rt_malloc. */
  lemma {:induction false} SameBlock(h: Heap, h1: Heap, p: Ptr)
    requires Wf(h) && Live(h, p) && Wf(h1) && Live(h1, p) && Undisturbed(h, h1, Null)
    ensures BlockOf(h, p) < |h.blocks| && BlockOf(h1, p) < |h1.blocks|
            && h1.blocks[BlockOf(h1, p)] == h.blocks[BlockOf(h, p)]
  {
    hide Extent, Chain, Apart, Aligned, FreeAt;
    LiveBlock(h, p);
    LiveBlock(h1, p);
    var (b, k) := (h.blocks[BlockOf(h, p)], BlockOf(h1, p));
    assert b in h1.blocks;
    var j :| 0 <= j < |h1.blocks| && h1.blocks[j] == b;
    ChainDistinct(h1.blocks, End(h1), j, k);
  }

  lemma {:induction false} SourceApart(h: Heap, i: nat, j: nat, len: nat)
    requires Wf(h) && i < |h.blocks| && j < |h.blocks| && i != j && len <= h.blocks[i].size
    ensures var (src, dst) := (h.blocks[i].at + HEADER, h.blocks[j].at + HEADER);
            src + len <= dst || dst + h.blocks[j].size <= src
  {
    hide Extent, Apart, Aligned;
    if i < j { ChainMono(h.blocks, End(h), i, j); } else { ChainMono(h.blocks, End(h), j, i); }
  }

  /** The block rt_malloc gives out was not in use and holds the rounded request. */
  lemma {:induction false} MallocTarget(h: Heap, r: nat)
    requires Wf(h) && r < WORD && Round(r) == r
    ensures var (h', q) := Malloc(h, r);
            && Undisturbed(h, h', Null)
            && (q.At? ==> Holds(h', q, r) && forall c: Block | c in h.blocks && c.used :: q != At(c.at + HEADER))
  {
    hide Extent, Chain, Apart, Aligned, FreeAt, Malloc, Low, Round;
    MallocGives(h, r);
    MallocSound(h, r);
    var (h', q) := Malloc(h, r);
    if q.At? {
      var i, j :| 0 <= i < |h.blocks| && !h.blocks[i].used && h.blocks[i].at + HEADER == q.off
                  && 0 <= j < |h'.blocks| && h'.blocks[j].used && OthersLive(h, h', h.blocks[i]);
      forall c: Block | c in h.blocks && c.used ensures q != At(c.at + HEADER) {
        var k :| 0 <= k < |h.blocks| && h.blocks[k] == c;
        if q == At(c.at + HEADER) { ChainDistinct(h.blocks, End(h), i, k); }
      }
    }
  }
}
