/** The memory heap of src/memheap.c as a mathematical object: the physical ring is a sequence of
    blocks that tile the pool, the free ring is a sequence of block addresses.  Every operation of
    the allocator replaces a run of blocks by another run that covers the same words (`Splice`).
    Memory is counted in 32-bit words: the item header is 6 words, RT_MEMHEAP_MINIALLOC is 3. */
module MemheapSpec {
  import opened Seqs

  const HEADER := 6
  const MINIALLOC := 3
  const NULL := 0

  datatype Block = Block(addr: int, size: int, used: bool) {
    function End(): int { addr + HEADER + size }
  }

  datatype Heap = Heap(start: int, pool: int, blocks: seq<Block>, free: seq<int>, available: int, maxUsed: int)

  /** A request in bytes, aligned to 8 bytes, raised to the minimum, in words. */
  function Request(bytes: nat): (n: int)
    ensures n >= MINIALLOC && 4 * n >= bytes
  {
    var n := (bytes + 7) / 8 * 2;
    if n < MINIALLOC then MINIALLOC else n
  }

  // ---- invariant ----

  /** The blocks follow one another without gap or overlap from `lo` to `hi`. */
  ghost predicate Tiles(b: seq<Block>, lo: int, hi: int)
    decreases |b|
  {
    if b == [] then lo == hi
    else b[0].addr == lo && b[0].size >= 0 && Tiles(b[1..], b[0].End(), hi)
  }

  /** No two neighbours are both free. */
  ghost predicate Coalesced(b: seq<Block>) {
    forall i, j | 0 <= i && j == i + 1 && j < |b| :: b[i].used || b[j].used
  }

  function FreeWords(b: seq<Block>): int {
    if b == [] then 0 else (if b[0].used then 0 else b[0].size) + FreeWords(b[1..])
  }

  /** How often `a` is the address of an unused block. */
  function Unused(b: seq<Block>, a: int): nat {
    if b == [] then 0 else (if !b[0].used && b[0].addr == a then 1 else 0) + Unused(b[1..], a)
  }

  /** How often `a` occurs on the free ring. */
  function Occurs(s: seq<int>, a: int): nat {
    if s == [] then 0 else (if s[0] == a then 1 else 0) + Occurs(s[1..], a)
  }

  ghost predicate Wf(h: Heap) {
    && 0 < h.start
    && 2 <= |h.blocks|
    && Tiles(h.blocks, h.start, h.start + h.pool)
    && h.blocks[|h.blocks| - 1].used && h.blocks[|h.blocks| - 1].size == 0
    && Coalesced(h.blocks)
    && (forall a :: Occurs(h.free, a) == Unused(h.blocks, a))
    && h.available == FreeWords(h.blocks)
    && h.pool - h.available <= h.maxUsed
  }

  // ---- operations ----

  function IndexOf(b: seq<Block>, a: int): (k: nat)
    ensures k <= |b|
    ensures k < |b| ==> b[k].addr == a
    ensures forall i | 0 <= i < k :: b[i].addr != a
  {
    if b == [] || b[0].addr == a then 0 else 1 + IndexOf(b[1..], a)
  }

  function Splice(b: seq<Block>, l: nat, r: nat, mid: seq<Block>): seq<Block>
    requires l <= r <= |b|
  {
    b[..l] + mid + b[r..]
  }

  function Max(a: int, b: int): int { if a < b then b else a }

  /** Book the new amount of available memory and raise the high-water mark if needed. */
  function Counted(h: Heap, available: int): Heap {
    h.(available := available, maxUsed := Max(h.maxUsed, h.pool - available))
  }

  /** Position on the free ring of the first block that holds `n` words (its length if there is none). */
  function Fit(free: seq<int>, b: seq<Block>, n: int): (p: nat)
    ensures p <= |free|
  {
    if free == [] then 0
    else
      var k := IndexOf(b, free[0]);
      if k < |b| && b[k].size >= n then 0 else 1 + Fit(free[1..], b, n)
  }

  /** The blocks that replace free block `f` when `n` words of it are handed out. */
  function AllocRun(f: Block, n: int): seq<Block> {
    if f.size >= n + HEADER + MINIALLOC then
      [Block(f.addr, n, true), Block(f.addr + HEADER + n, f.size - n - HEADER, false)]
    else
      [f.(used := true)]
  }

  function AllocAt(h: Heap, k: nat, n: int): Heap
    requires k < |h.blocks|
  {
    var (f, run, free) := (h.blocks[k], AllocRun(h.blocks[k], n), Without(h.free, h.blocks[k].addr));
    Counted(h.(blocks := Splice(h.blocks, k, k + 1, run), free := if |run| == 2 then [run[1].addr] + free else free),
            h.available - if |run| == 2 then n + HEADER else f.size)
  }

  function Alloc(h: Heap, n: int): (Heap, int) {
    var p := Fit(h.free, h.blocks, n);
    if n < h.available && p < |h.free| then
      var k := IndexOf(h.blocks, h.free[p]);
      if k < |h.blocks| then (AllocAt(h, k, n), h.free[p] + HEADER) else (h, NULL)
    else (h, NULL)
  }

  /** The run of blocks [l, r) that becomes one free block when block `k` is freed. */
  function MergeFrom(b: seq<Block>, k: nat): nat
    requires k < |b|
  {
    if k > 0 && !b[k - 1].used then k - 1 else k
  }

  function MergeTo(b: seq<Block>, k: nat): nat
    requires k < |b|
  {
    if k + 1 < |b| && !b[k + 1].used then k + 2 else k + 1
  }

  function MergeRun(b: seq<Block>, k: nat): seq<Block>
    requires k < |b|
  {
    var (l, r) := (MergeFrom(b, k), MergeTo(b, k));
    [Block(b[l].addr, b[r - 1].End() - b[l].addr - HEADER, false)]
  }

  function FreeAt(h: Heap, k: nat): Heap
    requires k < |h.blocks|
  {
    var (b, l, r) := (h.blocks, MergeFrom(h.blocks, k), MergeTo(h.blocks, k));
    var free := if r == k + 2 then Without(h.free, b[k + 1].addr) else h.free;
    h.(blocks := Splice(b, l, r, MergeRun(b, k)),
       free := if l < k then free else [b[k].addr] + free,
       available := h.available + b[k].size + (r - l - 1) * HEADER)
  }

  /** Block `x` grown to `n` words at the expense of the free block `nx` that follows it. */
  function GrowRun(x: Block, nx: Block, n: int): seq<Block> {
    [Block(x.addr, n, true), Block(x.addr + HEADER + n, x.size + nx.size - n, false)]
  }

  function GrowAt(h: Heap, k: nat, n: int): Heap
    requires k + 1 < |h.blocks|
  {
    var (x, nx) := (h.blocks[k], h.blocks[k + 1]);
    var run := GrowRun(x, nx, n);
    Counted(h.(blocks := Splice(h.blocks, k, k + 2, run), free := [run[1].addr] + Without(h.free, nx.addr)),
            h.available - (n - x.size))
  }

  /** The words after the first `n` of block `k` given back, joined with a free block that follows. */
  function ShrinkRun(b: seq<Block>, k: nat, n: int): seq<Block>
    requires k < |b|
  {
    var at := b[k].addr + HEADER + n;
    [Block(b[k].addr, n, true), Block(at, b[MergeTo(b, k) - 1].End() - at - HEADER, false)]
  }

  function ShrinkAt(h: Heap, k: nat, n: int): Heap
    requires k < |h.blocks|
  {
    var (b, r, run) := (h.blocks, MergeTo(h.blocks, k), ShrinkRun(h.blocks, k, n));
    var free := if r == k + 2 then Without(h.free, b[k + 1].addr) else h.free;
    h.(blocks := Splice(b, k, r, run),
       free := [run[1].addr] + free,
       available := h.available - (if r == k + 2 then b[k + 1].size else 0) + run[1].size)
  }

  /** `ptr` was handed out by the allocator and not freed since. */
  predicate Live(h: Heap, ptr: int) {
    var k := IndexOf(h.blocks, ptr - HEADER);
    k + 1 < |h.blocks| && h.blocks[k].used
  }

  /** The number of data words of a live block. */
  function SizeOf(h: Heap, ptr: int): int
    requires Live(h, ptr)
  {
    h.blocks[IndexOf(h.blocks, ptr - HEADER)].size
  }

  function Free(h: Heap, ptr: int): Heap {
    var k := IndexOf(h.blocks, ptr - HEADER);
    if ptr == NULL || k == |h.blocks| then h else FreeAt(h, k)
  }

  datatype Path = Freed | Fresh | Grown | Moved | Same | Shrunk

  /** Which way a reallocation goes. */
  function ReallocPath(h: Heap, ptr: int, bytes: nat): (p: Path)
    requires ptr == NULL || Live(h, ptr)
  {
    if bytes == 0 then Freed
    else if ptr == NULL then Fresh
    else
      var k := IndexOf(h.blocks, ptr - HEADER);
      var (b, nx, n) := (h.blocks[k], h.blocks[k + 1], Request(bytes));
      if n > b.size then
        if !nx.used && nx.size + b.size > n + MINIALLOC then Grown else Moved
      else if n + HEADER + MINIALLOC >= b.size then Same
      else Shrunk
  }

  function Realloc(h: Heap, ptr: int, bytes: nat): (Heap, int)
    requires ptr == NULL || Live(h, ptr)
  {
    var k := IndexOf(h.blocks, ptr - HEADER);
    var n := Request(bytes);
    match ReallocPath(h, ptr, bytes)
    case Freed => (Free(h, ptr), NULL)
    case Fresh => Alloc(h, Request(4 * n))
    case Grown => (GrowAt(h, k, n), ptr)
    case Moved =>
      var (h1, q) := Alloc(h, Request(4 * n));
      if q == NULL then (h1, NULL) else (Free(h1, ptr), q)
    case Same => (h, ptr)
    case Shrunk => (ShrinkAt(h, k, n), ptr)
  }

  /** The pool right after rt_memheap_init: one free block and the empty used tail. */
  function Init(start: int, pool: int): Heap {
    var big := pool - 2 * HEADER;
    Heap(start, pool, [Block(start, big, false), Block(start + HEADER + big, 0, true)], [start], big, 2 * HEADER)
  }

  // ---- runs ----

  datatype Op = OpAlloc(bytes: nat) | OpFree(ptr: int) | OpRealloc(ptr: int, bytes: nat)

  /** What the allocator demands of its callers: a pointer handed back is live (or null). */
  predicate Legal(h: Heap, op: Op) {
    op.OpAlloc? || op.ptr == NULL || Live(h, op.ptr)
  }

  function Step(h: Heap, op: Op): (Heap, int)
    requires Legal(h, op)
  {
    match op
    case OpAlloc(bytes) => Alloc(h, Request(bytes))
    case OpFree(ptr) => (Free(h, ptr), NULL)
    case OpRealloc(ptr, bytes) => Realloc(h, ptr, bytes)
  }

  /** The most memory in use at any moment of one operation: a moving reallocation holds both blocks. */
  function Peak(h: Heap, op: Op): int
    requires Legal(h, op)
  {
    if op.OpRealloc? && ReallocPath(h, op.ptr, op.bytes) == Moved
    then h.pool - Alloc(h, Request(4 * Request(op.bytes))).0.available
    else h.pool - Step(h, op).0.available
  }

  predicate LegalRun(h: Heap, ops: seq<Op>)
    decreases |ops|
  {
    ops == [] || (Legal(h, ops[0]) && LegalRun(Step(h, ops[0]).0, ops[1..]))
  }

  function Run(h: Heap, ops: seq<Op>): Heap
    requires LegalRun(h, ops)
    decreases |ops|
  {
    if ops == [] then h else Run(Step(h, ops[0]).0, ops[1..])
  }

  function RunPeak(h: Heap, ops: seq<Op>): int
    requires LegalRun(h, ops)
    decreases |ops|
  {
    if ops == [] then h.pool - h.available
    else Max(h.pool - h.available, Max(Peak(h, ops[0]), RunPeak(Step(h, ops[0]).0, ops[1..])))
  }
}
