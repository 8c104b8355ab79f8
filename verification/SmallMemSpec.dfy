/** The small-memory allocator of src/mem.c as a chain of blocks tiling the heap, with the lowest-free
    pointer and the usage counters.  Offsets count bytes from heap_ptr. */
module SmallMemSpec {

  const ALIGN := 8
  const HEADER := 16
  const MIN_SIZE := 12
  const MIN_ALIGNED := 16
  const WORD := 0x1_0000_0000

  /** `size` is the data behind the header. */
  datatype Block = Block(at: nat, size: nat, used: bool)

  datatype Heap = Heap(msa: nat, blocks: seq<Block>, lfree: nat, used: nat, max: nat)

  datatype Ptr = Null | At(off: nat)

  function Next(b: Block): nat { b.at + HEADER + b.size }

  /** The offset of heap_end. */
  function End(h: Heap): nat { h.msa + HEADER }

  /** RT_ALIGN on 32 bits. */
  function Round(n: nat): nat { (n + ALIGN - 1) / ALIGN * ALIGN % WORD }

  // ---- the invariant ----

  function Edge(bs: seq<Block>, end: nat, i: nat): nat { if i < |bs| then bs[i].at else end }

  ghost predicate Aligned(n: nat) { n % ALIGN == 0 }

  ghost predicate Linked(bs: seq<Block>, end: nat, i: nat) {
    i < |bs| && Next(bs[i]) == Edge(bs, end, i + 1) && Aligned(bs[i].at) && Aligned(bs[i].size)
  }

  /** The blocks tile the heap from 0 to `end`, at aligned offsets. */
  ghost predicate Chain(bs: seq<Block>, end: nat) {
    bs != [] && bs[0].at == 0 && forall i: nat | i < |bs| :: Linked(bs, end, i)
  }

  ghost predicate Pair(bs: seq<Block>, i: nat) { 0 < i < |bs| && (bs[i - 1].used || bs[i].used) }

  /** No two neighbours are free, apart from pairs with block `x`. */
  ghost predicate Apart(bs: seq<Block>, x: int) {
    forall i: nat | 0 < i < |bs| && i != x && i != x + 1 :: Pair(bs, i)
  }

  ghost predicate FreeAt(bs: seq<Block>, o: nat) {
    exists i :: 0 <= i < |bs| && bs[i].at == o && !bs[i].used
  }

  function Extent(bs: seq<Block>): nat {
    if bs == [] then 0 else (if bs[0].used then HEADER + bs[0].size else 0) + Extent(bs[1..])
  }

  ghost predicate Wf(h: Heap) {
    && h.msa >= MIN_ALIGNED && Aligned(h.msa) && h.msa + HEADER < WORD
    && Chain(h.blocks, End(h)) && h.blocks[|h.blocks| - 1].size >= MIN_ALIGNED && Apart(h.blocks, -2)
    && (h.lfree == End(h) || FreeAt(h.blocks, h.lfree))
    && h.used == Extent(h.blocks) <= h.max
  }

  // ---- operations ----

  function Join(bs: seq<Block>, i: nat): seq<Block>
    requires i + 1 < |bs|
  {
    bs[..i] + [Block(bs[i].at, bs[i].size + HEADER + bs[i + 1].size, bs[i].used)] + bs[i + 2..]
  }

  /** Block `i` keeps `s` bytes, the rest becomes a free block. */
  function Cut(bs: seq<Block>, i: nat, s: nat): seq<Block>
    requires i < |bs| && s + HEADER <= bs[i].size
  {
    var rest := Block(bs[i].at + HEADER + s, bs[i].size - s - HEADER, false);
    bs[..i] + [Block(bs[i].at, s, bs[i].used), rest] + bs[i + 1..]
  }

  function Mark(bs: seq<Block>, i: nat, used: bool): seq<Block>
    requires i < |bs|
  {
    bs[i := bs[i].(used := used)]
  }

  /** plug_holes on free block `i`: merge forward, then backward. */
  function Forward(bs: seq<Block>, lfree: nat, i: nat): (seq<Block>, nat)
    requires i < |bs|
  {
    if i + 1 < |bs| && !bs[i + 1].used then (Join(bs, i), if lfree == bs[i + 1].at then bs[i].at else lfree)
    else (bs, lfree)
  }

  function Backward(bs: seq<Block>, lfree: nat, i: nat): (seq<Block>, nat)
    requires i < |bs|
  {
    if i > 0 && !bs[i - 1].used then (Join(bs, i - 1), if lfree == bs[i].at then bs[i - 1].at else lfree)
    else (bs, lfree)
  }

  function Plug(bs: seq<Block>, lfree: nat, i: nat): (seq<Block>, nat)
    requires i < |bs|
  {
    var (bs1, l1) := Forward(bs, lfree, i);
    Backward(bs1, l1, i)
  }

  function IndexOf(bs: seq<Block>, o: nat): (i: nat)
    ensures i <= |bs| && (i < |bs| ==> bs[i].at == o)
  {
    if bs == [] || bs[0].at == o then 0 else 1 + IndexOf(bs[1..], o)
  }

  /** The search loop from block `i` on: it stops at the first offset of `limit` or more. */
  function Search(bs: seq<Block>, i: nat, s: nat, limit: int): (j: nat)
    requires i <= |bs|
    ensures i <= j <= |bs|
    decreases |bs| - i
  {
    if i == |bs| || bs[i].at >= limit then |bs|
    else if !bs[i].used && bs[i].size >= s then i
    else Search(bs, i + 1, s, limit)
  }

  /** The first free offset from block `i` on, or heap_end. */
  function FirstFree(bs: seq<Block>, i: nat, end: nat): nat
    requires i <= |bs|
    decreases |bs| - i
  {
    if i == |bs| then end else if !bs[i].used then bs[i].at else FirstFree(bs, i + 1, end)
  }

  function Max(a: nat, b: nat): nat { if a < b then b else a }

  function Take(h: Heap, i: nat, s: nat): Heap
    requires i < |h.blocks| && s <= h.blocks[i].size
  {
    var b := h.blocks[i];
    var split := b.size >= s + HEADER + MIN_ALIGNED;
    var bs := Mark(if split then Cut(h.blocks, i, s) else h.blocks, i, true);
    var used := h.used + HEADER + (if split then s else b.size);
    h.(blocks := bs, used := used, max := Max(h.max, used),
       lfree := if b.at == h.lfree then FirstFree(bs, i, End(h)) else h.lfree)
  }

  function Wanted(n: nat): nat { Max(Round(n), MIN_ALIGNED) }

  /** The block rt_malloc settles on; |blocks| for none. */
  function Found(h: Heap, n: nat): (i: nat)
    ensures i <= |h.blocks| && (i < |h.blocks| ==> Wanted(n) <= h.blocks[i].size)
  {
    if n == 0 || Round(n) > h.msa then |h.blocks|
    else
      SearchFits(h.blocks, IndexOf(h.blocks, h.lfree), Wanted(n), h.msa - Wanted(n));
      Search(h.blocks, IndexOf(h.blocks, h.lfree), Wanted(n), h.msa - Wanted(n))
  }

  function Malloc(h: Heap, n: nat): (Heap, Ptr) {
    var i := Found(h, n);
    if i == |h.blocks| then (h, Null) else (Take(h, i, Wanted(n)), At(h.blocks[i].at + HEADER))
  }

  function Release(h: Heap, i: nat): Heap
    requires i < |h.blocks| && h.used >= HEADER + h.blocks[i].size
  {
    var b := h.blocks[i];
    var (bs, l) := Plug(Mark(h.blocks, i, false), if b.at < h.lfree then b.at else h.lfree, i);
    h.(blocks := bs, lfree := l, used := h.used - (HEADER + b.size))
  }

  function Shrink(h: Heap, i: nat, s: nat): Heap
    requires i < |h.blocks| && s + HEADER <= h.blocks[i].size && h.used >= h.blocks[i].size
  {
    var (bs, l) := Plug(Cut(h.blocks, i, s), h.lfree, i + 1);
    h.(blocks := bs, lfree := l, used := h.used - (h.blocks[i].size - s))
  }

  /** A pointer that rt_malloc or rt_realloc gave out and that is still in use. */
  ghost predicate Live(h: Heap, p: Ptr) {
    p.At? && exists i :: 0 <= i < |h.blocks| && h.blocks[i].used && h.blocks[i].at + HEADER == p.off
  }

  /** The block behind a data pointer. */
  function BlockOf(h: Heap, p: Ptr): (i: nat)
    ensures i <= |h.blocks|
  {
    if p.Null? || p.off < HEADER then |h.blocks| else IndexOf(h.blocks, p.off - HEADER)
  }

  lemma {:induction false} SearchFits(bs: seq<Block>, i: nat, s: nat, limit: int)
    requires i <= |bs|
    ensures var j := Search(bs, i, s, limit); j < |bs| ==> bs[j].at < limit && !bs[j].used && bs[j].size >= s
    decreases |bs| - i
  {
    if i < |bs| && bs[i].at < limit && (bs[i].used || bs[i].size < s) { SearchFits(bs, i + 1, s, limit); }
  }
}
