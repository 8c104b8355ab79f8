/** What every operation of the memory heap keeps, and what holds after every run of them.

    All operations replace a run of blocks by another that covers the same words, so the proofs are about
    such replacements (`SpliceTiles`, `SpliceCoalesced`, `SpliceCounts`, `SpliceLive`), and then about the
    four of them: allocating, freeing, growing and shrinking.  Reallocation is a choice among these. */
module MemheapProps {
  import opened Seqs
  import opened MemheapSpec

  // ---- sequences of blocks ----

  lemma {:induction false} TilesJoin(a: seq<Block>, b: seq<Block>, lo: int, mid: int, hi: int)
    requires Tiles(a, lo, mid) && Tiles(b, mid, hi)
    ensures Tiles(a + b, lo, hi)
    decreases |a|
  {
    if a == [] {
      assert a + b == b;
    } else {
      assert (a + b)[1..] == a[1..] + b;
      TilesJoin(a[1..], b, a[0].End(), mid, hi);
    }
  }

  lemma {:induction false} TilesCut(b: seq<Block>, k: nat, lo: int, hi: int)
    requires Tiles(b, lo, hi) && k <= |b|
    ensures Tiles(b[..k], lo, if k < |b| then b[k].addr else hi)
    ensures Tiles(b[k..], if k < |b| then b[k].addr else hi, hi)
    decreases |b|
  {
    if k > 0 {
      assert b[..k][1..] == b[1..][..k - 1] && b[k..] == b[1..][k - 1..];
      TilesCut(b[1..], k - 1, b[0].End(), hi);
    } else {
      assert b[..k] == [] && b[k..] == b;
    }
  }

  /** Tiling blocks are in address order and do not overlap. */
  lemma {:induction false} TilesApart(b: seq<Block>, lo: int, hi: int)
    requires Tiles(b, lo, hi)
    ensures forall i | 0 <= i < |b| :: lo <= b[i].addr && 0 <= b[i].size && b[i].End() <= hi
    ensures forall i, j | 0 <= i < j < |b| :: b[i].End() <= b[j].addr
    ensures forall i, j | 0 <= i && j == i + 1 && j < |b| :: b[i].End() == b[j].addr
    ensures b == [] ==> lo == hi
    ensures b != [] ==> lo == b[0].addr && b[|b| - 1].End() == hi
    decreases |b|
  {
    if b != [] {
      TilesApart(b[1..], b[0].End(), hi);
      assert forall i | 0 < i < |b| :: b[i] == b[1..][i - 1];
    }
  }

  lemma {:induction false} CountsJoin(a: seq<Block>, b: seq<Block>, x: int)
    ensures FreeWords(a + b) == FreeWords(a) + FreeWords(b)
    ensures Unused(a + b, x) == Unused(a, x) + Unused(b, x)
    decreases |a|
  {
    if a == [] {
      assert a + b == b;
    } else {
      assert (a + b)[1..] == a[1..] + b;
      CountsJoin(a[1..], b, x);
    }
  }

  lemma {:induction false} CountsOf1(x: Block, a: int)
    ensures FreeWords([x]) == if x.used then 0 else x.size
    ensures Unused([x], a) == if !x.used && x.addr == a then 1 else 0
  {
    assert [x][1..] == [];
  }

  lemma {:induction false} CountsOf2(x: Block, y: Block, a: int)
    ensures FreeWords([x, y]) == FreeWords([x]) + FreeWords([y])
    ensures Unused([x, y], a) == Unused([x], a) + Unused([y], a)
  {
    assert [x, y] == [x] + [y];
    CountsJoin([x], [y], a);
  }

  /** Replacing a run of blocks by blocks over the same words. */
  lemma {:induction false} SpliceTiles(b: seq<Block>, l: nat, r: nat, mid: seq<Block>, lo: int, hi: int)
    requires l < r <= |b| && Tiles(b, lo, hi) && Tiles(mid, b[l].addr, b[r - 1].End())
    ensures Tiles(Splice(b, l, r, mid), lo, hi)
  {
    TilesApart(b, lo, hi);
    TilesCut(b, l, lo, hi);
    TilesCut(b, r, lo, hi);
    TilesJoin(b[..l], mid, lo, b[l].addr, b[r - 1].End());
    TilesJoin(b[..l] + mid, b[r..], lo, b[r - 1].End(), hi);
  }

  lemma {:induction false} SpliceCoalesced(b: seq<Block>, l: nat, r: nat, mid: seq<Block>)
    requires l < r <= |b| && Coalesced(b) && mid != [] && Coalesced(mid)
    requires l > 0 ==> b[l - 1].used || mid[0].used
    requires r < |b| ==> mid[|mid| - 1].used || b[r].used
    ensures Coalesced(Splice(b, l, r, mid))
  {
    var s := Splice(b, l, r, mid);
    forall i, j | 0 <= i && j == i + 1 && j < |s| ensures s[i].used || s[j].used {
      if j < l {
        assert s[i] == b[i] && s[j] == b[j];
      } else if l <= i && j < l + |mid| {
        assert s[i] == mid[i - l] && s[j] == mid[j - l];
      } else if i >= l + |mid| {
        assert s[i] == b[i - l - |mid| + r] && s[j] == b[j - l - |mid| + r];
      }
    }
  }

  lemma {:induction false} SpliceCounts(b: seq<Block>, l: nat, r: nat, mid: seq<Block>, a: int)
    requires l <= r <= |b|
    ensures FreeWords(Splice(b, l, r, mid)) == FreeWords(b) - FreeWords(b[l..r]) + FreeWords(mid)
    ensures Unused(Splice(b, l, r, mid), a) == Unused(b, a) - Unused(b[l..r], a) + Unused(mid, a)
  {
    assert b == b[..l] + b[l..r] + b[r..];
    CountsJoin(b[..l] + b[l..r], b[r..], a);
    CountsJoin(b[..l], b[l..r], a);
    CountsJoin(b[..l] + mid, b[r..], a);
    CountsJoin(b[..l], mid, a);
  }

  /** A spliced heap is well formed when the new run is, and its counters and free ring agree with it. */
  lemma {:induction false} SpliceKeeps(h: Heap, l: nat, r: nat, mid: seq<Block>, h': Heap)
    requires Wf(h) && l < r < |h.blocks|
    requires mid != [] && Tiles(mid, h.blocks[l].addr, h.blocks[r - 1].End()) && Coalesced(mid)
    requires l > 0 ==> h.blocks[l - 1].used || mid[0].used
    requires mid[|mid| - 1].used || h.blocks[r].used
    requires h'.start == h.start && h'.pool == h.pool && h'.blocks == Splice(h.blocks, l, r, mid)
    requires forall a :: Occurs(h'.free, a) == Occurs(h.free, a) - Unused(h.blocks[l..r], a) + Unused(mid, a)
    requires h'.available == h.available - FreeWords(h.blocks[l..r]) + FreeWords(mid)
    requires h'.pool - h'.available <= h'.maxUsed
    ensures Wf(h')
  {
    SpliceTiles(h.blocks, l, r, mid, h.start, h.start + h.pool);
    SpliceCoalesced(h.blocks, l, r, mid);
    SpliceCounts(h.blocks, l, r, mid, 0);
    assert h'.blocks[|h'.blocks| - 1] == h.blocks[|h.blocks| - 1];
    forall a ensures Occurs(h'.free, a) == Unused(h'.blocks, a) {
      SpliceCounts(h.blocks, l, r, mid, a);
    }
  }

  // ---- the free ring ----

  /** An address is on the free ring exactly when it is the address of an unused block. */
  lemma {:induction false} UnusedIff(b: seq<Block>, lo: int, hi: int, a: int)
    requires Tiles(b, lo, hi)
    ensures 0 < Unused(b, a) <==> exists i | 0 <= i < |b| :: !b[i].used && b[i].addr == a
    ensures Unused(b, a) <= 1
    decreases |b|
  {
    if b != [] {
      UnusedIff(b[1..], b[0].End(), hi, a);
      TilesApart(b, lo, hi);
      forall i | 0 <= i < |b[1..]| && !b[1..][i].used && b[1..][i].addr == a
        ensures !b[i + 1].used && b[i + 1].addr == a
      {
      }
      forall i | 0 < i < |b| && !b[i].used && b[i].addr == a ensures !b[1..][i - 1].used && b[1..][i - 1].addr == a {}
    }
  }

  lemma {:induction false} OccursIff(s: seq<int>, a: int)
    ensures 0 < Occurs(s, a) <==> a in s
  {
    if s != [] {
      OccursIff(s[1..], a);
      assert s == [s[0]] + s[1..];
    }
  }

  lemma {:induction false} WithoutOccurs(s: seq<int>, a: int, x: int)
    requires a in s
    ensures Occurs(Without(s, a), x) == Occurs(s, x) - (if a == x then 1 else 0)
  {
    assert s == [s[0]] + s[1..];
    if s[0] != a {
      WithoutOccurs(s[1..], a, x);
      assert Without(s, a)[1..] == Without(s[1..], a);
    }
  }

  lemma {:induction false} FrontOccurs(s: seq<int>, a: int, x: int)
    ensures Occurs([a] + s, x) == Occurs(s, x) + (if a == x then 1 else 0)
  {
    assert ([a] + s)[1..] == s;
  }

  lemma {:induction false} IndexOfAddr(b: seq<Block>, lo: int, hi: int, k: nat)
    requires Tiles(b, lo, hi) && k < |b|
    ensures IndexOf(b, b[k].addr) == k
  {
    TilesApart(b, lo, hi);
  }

  /** Every address on the free ring names a free block that is not the tail. */
  lemma {:induction false} FreeIndex(h: Heap, p: nat)
    requires Wf(h) && p < |h.free|
    ensures var k := IndexOf(h.blocks, h.free[p]);
            k + 1 < |h.blocks| && h.blocks[k].addr == h.free[p] && !h.blocks[k].used
  {
    OccursIff(h.free, h.free[p]);
    UnusedIff(h.blocks, h.start, h.start + h.pool, h.free[p]);
    var i :| 0 <= i < |h.blocks| && !h.blocks[i].used && h.blocks[i].addr == h.free[p];
    IndexOfAddr(h.blocks, h.start, h.start + h.pool, i);
  }

  lemma {:induction false} FreeOnRing(h: Heap, k: nat)
    requires Wf(h) && k < |h.blocks| && !h.blocks[k].used
    ensures h.blocks[k].addr in h.free
  {
    UnusedIff(h.blocks, h.start, h.start + h.pool, h.blocks[k].addr);
    OccursIff(h.free, h.blocks[k].addr);
  }

  // ---- each operation keeps the invariant ----

  lemma {:induction false} TilesOf1(x: Block)
    requires x.size >= 0
    ensures Tiles([x], x.addr, x.End()) && Coalesced([x])
  {
    assert [x][1..] == [];
  }

  lemma {:induction false} TilesOf2(x: Block, y: Block)
    requires x.size >= 0 && y.size >= 0 && x.End() == y.addr && (x.used || y.used)
    ensures Tiles([x, y], x.addr, y.End()) && Coalesced([x, y])
  {
    assert [x, y][1..] == [y] && [y][1..] == [];
  }

  /** The layout around one block. */
  lemma {:induction false} Around(h: Heap, k: nat)
    requires Wf(h) && k + 1 < |h.blocks|
    ensures h.blocks[k].size >= 0 && h.blocks[k + 1].size >= 0 && h.blocks[k].End() == h.blocks[k + 1].addr
    ensures k > 0 ==> h.blocks[k - 1].size >= 0 && h.blocks[k - 1].End() == h.blocks[k].addr
    ensures !h.blocks[k].used ==> h.blocks[k].addr in h.free && h.blocks[k + 1].used && (k > 0 ==> h.blocks[k - 1].used)
    ensures !h.blocks[k + 1].used ==> k + 2 < |h.blocks| && h.blocks[k + 2].used && h.blocks[k + 1].addr in h.free
  {
    TilesApart(h.blocks, h.start, h.start + h.pool);
    if !h.blocks[k].used { FreeOnRing(h, k); }
    if !h.blocks[k + 1].used { FreeOnRing(h, k + 1); }
  }

  lemma {:induction false} AllocAtKeeps(h: Heap, k: nat, n: int)
    requires Wf(h) && k + 1 < |h.blocks| && !h.blocks[k].used && 0 <= n <= h.blocks[k].size
    ensures Wf(AllocAt(h, k, n))
  {
    var (f, mid, h') := (h.blocks[k], AllocRun(h.blocks[k], n), AllocAt(h, k, n));
    var x, rest := mid[0], mid[|mid| - 1];
    Around(h, k);
    assert h.blocks[k..k + 1] == [f];
    if |mid| == 2 { TilesOf2(x, rest); } else { TilesOf1(x); }
    CountsOf1(x, 0); CountsOf1(f, 0); CountsOf1(rest, 0); CountsOf2(x, rest, 0);
    forall a ensures Occurs(h'.free, a) == Occurs(h.free, a) - Unused([f], a) + Unused(mid, a) {
      CountsOf1(x, a); CountsOf1(f, a); CountsOf1(rest, a); CountsOf2(x, rest, a);
      WithoutOccurs(h.free, f.addr, a);
      FrontOccurs(Without(h.free, f.addr), rest.addr, a);
    }
    SpliceKeeps(h, k, k + 1, mid, h');
  }

  /** What the run of blocks joined by a free held before it. */
  lemma {:induction false} RunCounts(b: seq<Block>, k: nat, a: int)
    requires k < |b| && b[k].used
    ensures var (l, r) := (MergeFrom(b, k), MergeTo(b, k));
            && FreeWords(b[l..r]) == (if l < k then b[l].size else 0) + (if r == k + 2 then b[r - 1].size else 0)
            && Unused(b[l..r], a) == (if l < k && b[l].addr == a then 1 else 0)
                                     + (if r == k + 2 && b[r - 1].addr == a then 1 else 0)
  {
    var l, r := MergeFrom(b, k), MergeTo(b, k);
    var left, right := if l < k then [b[l]] else [], if r == k + 2 then [b[r - 1]] else [];
    assert b[l..r] == left + ([b[k]] + right);
    CountsJoin(left, [b[k]] + right, a);
    CountsJoin([b[k]], right, a);
    CountsOf1(b[k], a); CountsOf1(b[l], a); CountsOf1(b[r - 1], a);
  }

  lemma {:induction false} FreeAtKeeps(h: Heap, k: nat)
    requires Wf(h) && k + 1 < |h.blocks| && h.blocks[k].used
    ensures Wf(FreeAt(h, k))
  {
    var b, h' := h.blocks, FreeAt(h, k);
    var l, r := MergeFrom(b, k), MergeTo(b, k);
    var merged := MergeRun(b, k)[0];
    Around(h, k);
    if k > 0 { Around(h, k - 1); }
    RunCounts(b, k, 0); CountsOf1(merged, 0); TilesOf1(merged);
    forall a ensures Occurs(h'.free, a) == Occurs(h.free, a) - Unused(b[l..r], a) + Unused([merged], a) {
      RunCounts(b, k, a); CountsOf1(merged, a);
      if r == k + 2 { WithoutOccurs(h.free, b[k + 1].addr, a); }
      FrontOccurs(if r == k + 2 then Without(h.free, b[k + 1].addr) else h.free, b[k].addr, a);
    }
    SpliceKeeps(h, l, r, [merged], h');
  }

  lemma {:induction false} GrowAtKeeps(h: Heap, k: nat, n: int)
    requires Wf(h) && k + 1 < |h.blocks| && h.blocks[k].used && !h.blocks[k + 1].used
    requires h.blocks[k].size < n <= h.blocks[k].size + h.blocks[k + 1].size
    ensures Wf(GrowAt(h, k, n))
  {
    var (x, nx, h') := (h.blocks[k], h.blocks[k + 1], GrowAt(h, k, n));
    var y, rest := GrowRun(x, nx, n)[0], GrowRun(x, nx, n)[1];
    Around(h, k);
    assert h.blocks[k..k + 2] == [x, nx];
    TilesOf2(y, rest);
    CountsOf1(y, 0); CountsOf1(rest, 0); CountsOf2(y, rest, 0); CountsOf1(x, 0); CountsOf1(nx, 0); CountsOf2(x, nx, 0);
    forall a ensures Occurs(h'.free, a) == Occurs(h.free, a) - Unused([x, nx], a) + Unused([y, rest], a) {
      CountsOf1(y, a);
      CountsOf1(rest, a);
      CountsOf2(y, rest, a);
      CountsOf1(x, a);
      CountsOf1(nx, a);
      CountsOf2(x, nx, a);
      WithoutOccurs(h.free, nx.addr, a);
      FrontOccurs(Without(h.free, nx.addr), rest.addr, a);
    }
    SpliceKeeps(h, k, k + 2, [y, rest], h');
  }

  lemma {:induction false} ShrinkAtKeeps(h: Heap, k: nat, n: int)
    requires Wf(h) && k + 1 < |h.blocks| && h.blocks[k].used
    requires 0 <= n && n + HEADER <= h.blocks[k].size
    ensures Wf(ShrinkAt(h, k, n))
    ensures h.available <= ShrinkAt(h, k, n).available
  {
    var (b, x, r, h') := (h.blocks, h.blocks[k], MergeTo(h.blocks, k), ShrinkAt(h, k, n));
    var y, rest := ShrinkRun(b, k, n)[0], ShrinkRun(b, k, n)[1];
    Around(h, k);
    TilesOf2(y, rest);
    var run := if r == k + 2 then [x, b[k + 1]] else [x];
    assert b[k..r] == run;
    CountsOf1(y, 0);
    CountsOf1(rest, 0);
    CountsOf2(y, rest, 0);
    CountsOf1(x, 0);
    CountsOf1(b[k + 1], 0);
    CountsOf2(x, b[k + 1], 0);
    forall a ensures Occurs(h'.free, a) == Occurs(h.free, a) - Unused(run, a) + Unused([y, rest], a) {
      CountsOf1(y, a);
      CountsOf1(rest, a);
      CountsOf2(y, rest, a);
      CountsOf1(x, a);
      CountsOf1(b[k + 1], a);
      CountsOf2(x, b[k + 1], a);
      if r == k + 2 { WithoutOccurs(h.free, b[k + 1].addr, a); }
      FrontOccurs(if r == k + 2 then Without(h.free, b[k + 1].addr) else h.free, rest.addr, a);
    }
    SpliceKeeps(h, k, r, [y, rest], h');
  }

  // ---- live blocks ----

  /** A live block outside the replaced run is live afterwards with the same size, and back. */
  lemma {:induction false} SpliceLive(h: Heap, l: nat, r: nat, mid: seq<Block>, h': Heap, q: int)
    requires Wf(h) && Wf(h') && l < r < |h.blocks| && h'.blocks == Splice(h.blocks, l, r, mid)
    requires forall i | 0 <= i < |mid| :: mid[i].used ==> mid[i].addr + HEADER != q
    requires forall i | l <= i < r :: h.blocks[i].used ==> h.blocks[i].addr + HEADER != q
    ensures Live(h', q) <==> Live(h, q)
    ensures Live(h, q) ==> SizeOf(h', q) == SizeOf(h, q)
  {
    var k, k' := IndexOf(h.blocks, q - HEADER), IndexOf(h'.blocks, q - HEADER);
    var shift := |mid| - (r - l);
    if Live(h, q) {
      var j := if k < l then k else k + shift;
      assert h'.blocks[j] == h.blocks[k];
      IndexOfAddr(h'.blocks, h'.start, h'.start + h'.pool, j);
    }
    if Live(h', q) {
      assert forall i | 0 <= i < |mid| :: h'.blocks[l + i] == mid[i];
      var j := if k' < l then k' else k' - shift;
      assert h.blocks[j] == h'.blocks[k'];
      IndexOfAddr(h.blocks, h.start, h.start + h.pool, j);
    }
  }

  /** The blocks of a splice that lie in the new run. */
  lemma {:induction false} SpliceMid(h': Heap, b: seq<Block>, l: nat, r: nat, mid: seq<Block>, i: nat)
    requires Wf(h') && l < r < |b| && h'.blocks == Splice(b, l, r, mid) && i < |mid| && mid[i].used
    ensures Live(h', mid[i].addr + HEADER) && SizeOf(h', mid[i].addr + HEADER) == mid[i].size
  {
    assert h'.blocks[l + i] == mid[i];
    IndexOfAddr(h'.blocks, h'.start, h'.start + h'.pool, l + i);
  }

  /** `gone` is no longer live, `came` is; every other live block keeps its place and size. */
  ghost predicate Changed(h: Heap, h': Heap, gone: int, came: int) {
    && (forall q :: Live(h', q) <==> (Live(h, q) && q != gone) || (q == came && came != NULL))
    && (forall q | Live(h, q) && q != gone && q != came :: Live(h', q) && SizeOf(h', q) == SizeOf(h, q))
  }

  lemma {:induction false} NullIsDead(h: Heap)
    requires Wf(h)
    ensures !Live(h, NULL) && forall i | 0 <= i < |h.blocks| :: 0 < h.blocks[i].addr
  {
    TilesApart(h.blocks, h.start, h.start + h.pool);
  }

  /** A splice whose old run holds no used block but `gone` and whose new run holds none but `came`. */
  lemma {:induction false} SpliceChanged(h: Heap, l: nat, r: nat, mid: seq<Block>, h': Heap, gone: int, came: int)
    requires Wf(h) && Wf(h') && l < r < |h.blocks| && h'.blocks == Splice(h.blocks, l, r, mid)
    requires forall i | 0 <= i < |mid| :: mid[i].used ==> mid[i].addr + HEADER == came
    requires forall i | l <= i < r :: h.blocks[i].used ==> h.blocks[i].addr + HEADER == gone
    requires came != NULL ==> Live(h', came) && (came == gone || !Live(h, came))
    requires gone == NULL || gone == came || !Live(h', gone)
    ensures Changed(h, h', gone, came)
  {
    NullIsDead(h);
    NullIsDead(h');
    forall q | q != gone && q != came
      ensures Live(h', q) <==> Live(h, q)
      ensures Live(h, q) ==> SizeOf(h', q) == SizeOf(h, q)
    {
      SpliceLive(h, l, r, mid, h', q);
    }
  }

  /** The first block on the free ring that is large enough. */
  lemma {:induction false} FitIsFirst(h: Heap, free: seq<int>, n: int)
    ensures var p := Fit(free, h.blocks, n);
            && (p < |free| ==> var k := IndexOf(h.blocks, free[p]); k < |h.blocks| && h.blocks[k].size >= n)
            && forall i | 0 <= i < p :: var k := IndexOf(h.blocks, free[i]); k < |h.blocks| ==> h.blocks[k].size < n
    decreases |free|
  {
    if free != [] {
      FitIsFirst(h, free[1..], n);
      assert forall i | 0 < i < |free| :: free[i] == free[1..][i - 1];
    }
  }

  /** The block that an allocation takes. */
  lemma {:induction false} AllocBlock(h: Heap, n: int) returns (k: nat)
    requires Wf(h) && MINIALLOC <= n && n < h.available && Fit(h.free, h.blocks, n) < |h.free|
    ensures k + 1 < |h.blocks| && !h.blocks[k].used && n <= h.blocks[k].size
    ensures Alloc(h, n) == (AllocAt(h, k, n), h.blocks[k].addr + HEADER) && Wf(AllocAt(h, k, n))
  {
    FitIsFirst(h, h.free, n);
    FreeIndex(h, Fit(h.free, h.blocks, n));
    k := IndexOf(h.blocks, h.free[Fit(h.free, h.blocks, n)]);
    AllocAtKeeps(h, k, n);
  }

  /** What an allocation promises.  It fails exactly when no free block is large enough or the
      request is not below the total of available words. */
  lemma {:induction false} AllocSound(h: Heap, n: int)
    requires Wf(h) && MINIALLOC <= n
    ensures var (h', ptr) := Alloc(h, n);
            && Wf(h')
            && h'.maxUsed == Max(h.maxUsed, h.pool - h'.available) && h'.pool == h.pool
            && (ptr == NULL <==> n >= h.available
                                 || forall i | 0 <= i < |h.blocks| :: !h.blocks[i].used ==> h.blocks[i].size < n)
            && (ptr == NULL ==> h' == h)
            && (ptr != NULL ==> Changed(h, h', NULL, ptr) && !Live(h, ptr)
                                && n <= SizeOf(h', ptr) < n + HEADER + MINIALLOC)
  {
    var p := Fit(h.free, h.blocks, n);
    FitIsFirst(h, h.free, n);
    if p < |h.free| {
      FreeIndex(h, p);
      var k := IndexOf(h.blocks, h.free[p]);
      TilesApart(h.blocks, h.start, h.start + h.pool);
      if n < h.available {
        var j := AllocBlock(h, n);
        AllocAtLive(h, j, n);
      }
    } else {
      forall i | 0 <= i < |h.blocks| && !h.blocks[i].used ensures h.blocks[i].size < n {
        FreeOnRing(h, i);
        IndexOfAddr(h.blocks, h.start, h.start + h.pool, i);
      }
    }
  }

  lemma {:induction false} AllocAtLive(h: Heap, k: nat, n: int)
    requires Wf(h) && k + 1 < |h.blocks| && !h.blocks[k].used && 0 <= n <= h.blocks[k].size && Wf(AllocAt(h, k, n))
    ensures var (h', ptr) := (AllocAt(h, k, n), h.blocks[k].addr + HEADER);
            Changed(h, h', NULL, ptr) && !Live(h, ptr) && Live(h', ptr) && n <= SizeOf(h', ptr) < n + HEADER + MINIALLOC
  {
    var (f, mid, h') := (h.blocks[k], AllocRun(h.blocks[k], n), AllocAt(h, k, n));
    SpliceMid(h', h.blocks, k, k + 1, mid, 0);
    IndexOfAddr(h.blocks, h.start, h.start + h.pool, k);
    NullIsDead(h);
    SpliceChanged(h, k, k + 1, mid, h', NULL, f.addr + HEADER);
  }

  lemma {:induction false} FreeSound(h: Heap, ptr: int)
    requires Wf(h) && Live(h, ptr)
    ensures var h' := Free(h, ptr);
            Wf(h') && Changed(h, h', ptr, NULL) && h'.available >= h.available && h'.maxUsed == h.maxUsed
                && h'.pool == h.pool
  {
    var k, h' := IndexOf(h.blocks, ptr - HEADER), Free(h, ptr);
    var l, r := MergeFrom(h.blocks, k), MergeTo(h.blocks, k);
    NullIsDead(h);
    FreeAtKeeps(h, k);
    assert h.blocks[k].size >= 0 by { Around(h, k); }
    FreedGone(h, k);
    SpliceChanged(h, l, r, MergeRun(h.blocks, k), h', ptr, NULL);
  }

  /** No block starts inside another one. */
  lemma {:induction false} InsideIsNoAddr(b: seq<Block>, lo: int, hi: int, i: nat, x: int)
    requires Tiles(b, lo, hi) && i < |b| && b[i].addr < x < b[i].End()
    ensures IndexOf(b, x) == |b|
  {
    TilesApart(b, lo, hi);
  }

  lemma {:induction false} FreedGone(h: Heap, k: nat)
    requires Wf(h) && k + 1 < |h.blocks| && h.blocks[k].used && Wf(FreeAt(h, k))
    ensures !Live(FreeAt(h, k), h.blocks[k].addr + HEADER)
  {
    var l, h' := MergeFrom(h.blocks, k), FreeAt(h, k);
    assert h'.blocks[l] == MergeRun(h.blocks, k)[0];
    Around(h, k);
    if l == k {
      IndexOfAddr(h'.blocks, h'.start, h'.start + h'.pool, l);
    } else {
      InsideIsNoAddr(h'.blocks, h'.start, h'.start + h'.pool, l, h.blocks[k].addr);
    }
  }

  lemma {:induction false} GrowSound(h: Heap, ptr: int, n: int)
    requires Wf(h) && Live(h, ptr)
    requires var k := IndexOf(h.blocks, ptr - HEADER);
             !h.blocks[k + 1].used && h.blocks[k].size < n <= h.blocks[k].size + h.blocks[k + 1].size
    ensures var h' := GrowAt(h, IndexOf(h.blocks, ptr - HEADER), n);
            Wf(h') && Changed(h, h', ptr, ptr) && Live(h', ptr) && SizeOf(h', ptr) == n
  {
    var k := IndexOf(h.blocks, ptr - HEADER);
    var (mid, h') := (GrowRun(h.blocks[k], h.blocks[k + 1], n), GrowAt(h, k, n));
    NullIsDead(h);
    GrowAtKeeps(h, k, n);
    assert k + 2 < |h.blocks| by { Around(h, k); }
    SpliceMid(h', h.blocks, k, k + 2, mid, 0);
    SpliceChanged(h, k, k + 2, mid, h', ptr, ptr);
  }

  lemma {:induction false} ShrinkSound(h: Heap, ptr: int, n: int)
    requires Wf(h) && Live(h, ptr) && 0 <= n && n + HEADER <= SizeOf(h, ptr)
    ensures var h' := ShrinkAt(h, IndexOf(h.blocks, ptr - HEADER), n);
            Wf(h') && Changed(h, h', ptr, ptr) && Live(h', ptr) && SizeOf(h', ptr) == n && h.available <= h'.available
  {
    var k := IndexOf(h.blocks, ptr - HEADER);
    var (r, mid, h') := (MergeTo(h.blocks, k), ShrinkRun(h.blocks, k, n), ShrinkAt(h, k, n));
    NullIsDead(h);
    ShrinkAtKeeps(h, k, n);
    assert r < |h.blocks| by { Around(h, k); }
    SpliceMid(h', h.blocks, k, r, mid, 0);
    SpliceChanged(h, k, r, mid, h', ptr, ptr);
  }

  lemma {:induction false} ChangedTwice(h: Heap, h1: Heap, h': Heap, gone: int, came: int)
    requires Changed(h, h1, NULL, came) && Changed(h1, h', gone, NULL)
    requires !Live(h, NULL) && !Live(h, came) && came != NULL && gone != came && Live(h1, came)
    ensures Changed(h, h', gone, came) && Live(h', came) && SizeOf(h', came) == SizeOf(h1, came)
  {
  }

  lemma {:induction false} MoveSound(h: Heap, ptr: int, n: int)
    requires Wf(h) && Live(h, ptr) && MINIALLOC <= n
    ensures var (h1, q) := Alloc(h, n);
            var h' := Free(h1, ptr);
            && h1.pool == h.pool && h1.maxUsed == Max(h.maxUsed, h.pool - h1.available) && Wf(h1)
            && (q == NULL ==> h1 == h)
            && (q != NULL ==> && Wf(h') && h'.pool == h.pool && h'.maxUsed == h1.maxUsed
                              && Changed(h, h', ptr, q) && Live(h', q) && SizeOf(h', q) >= n)
  {
    AllocSound(h, n);
    NullIsDead(h);
    var (h1, q) := Alloc(h, n);
    if q != NULL {
      assert Live(h1, ptr);
      FreeSound(h1, ptr);
      ChangedTwice(h, h1, Free(h1, ptr), ptr, q);
    }
  }

  /** What a reallocation of `ptr` that ends in state `h'` with result `q` promises: the result holds
      the request, everything else is untouched; a failed move changes nothing, so the old block is
      still live. */
  ghost predicate ReallocOk(h: Heap, ptr: int, bytes: nat, h': Heap, q: int, peak: int) {
    && Wf(h') && h'.pool == h.pool
    && h'.maxUsed == Max(h.maxUsed, peak)
    && (bytes > 0 && q == NULL ==> h' == h)
    && (bytes == 0 || q != NULL ==> Changed(h, h', ptr, q))
    && (q != NULL ==> Live(h', q) && 4 * SizeOf(h', q) >= bytes)
  }

  lemma {:induction false} WfCount(h: Heap)
    requires Wf(h)
    ensures h.pool - h.available <= h.maxUsed
  {
  }

  lemma {:induction false} ReallocFreed(h: Heap, ptr: int, bytes: nat)
    requires Wf(h) && (ptr == NULL || Live(h, ptr)) && ReallocPath(h, ptr, bytes) == Freed
    ensures var (h', q) := Realloc(h, ptr, bytes); ReallocOk(h, ptr, bytes, h', q, Peak(h, OpRealloc(ptr, bytes)))
  {
    hide Wf, Live;
    WfCount(h);
    NullIsDead(h);
    if ptr != NULL { FreeSound(h, ptr); }
  }

  lemma {:induction false} ReallocFresh(h: Heap, ptr: int, bytes: nat)
    requires Wf(h) && (ptr == NULL || Live(h, ptr)) && ReallocPath(h, ptr, bytes) == Fresh
    ensures var (h', q) := Realloc(h, ptr, bytes); ReallocOk(h, ptr, bytes, h', q, Peak(h, OpRealloc(ptr, bytes)))
  {
    hide Wf, Live, Alloc, Changed;
    AllocSound(h, Request(4 * Request(bytes)));
  }

  lemma {:induction false} ReallocGrown(h: Heap, ptr: int, bytes: nat)
    requires Wf(h) && (ptr == NULL || Live(h, ptr)) && ReallocPath(h, ptr, bytes) == Grown
    ensures var (h', q) := Realloc(h, ptr, bytes); ReallocOk(h, ptr, bytes, h', q, Peak(h, OpRealloc(ptr, bytes)))
  {
    GrowSound(h, ptr, Request(bytes));
  }

  lemma {:induction false} ReallocMoved(h: Heap, ptr: int, bytes: nat)
    requires Wf(h) && (ptr == NULL || Live(h, ptr)) && ReallocPath(h, ptr, bytes) == Moved
    ensures var (h', q) := Realloc(h, ptr, bytes); ReallocOk(h, ptr, bytes, h', q, Peak(h, OpRealloc(ptr, bytes)))
  {
    hide Wf, Changed, Alloc, Free, Live;
    MoveSound(h, ptr, Request(4 * Request(bytes)));
  }

  lemma {:induction false} ReallocSame(h: Heap, ptr: int, bytes: nat)
    requires Wf(h) && (ptr == NULL || Live(h, ptr)) && ReallocPath(h, ptr, bytes) == Same
    ensures var (h', q) := Realloc(h, ptr, bytes); ReallocOk(h, ptr, bytes, h', q, Peak(h, OpRealloc(ptr, bytes)))
  {
    NullIsDead(h);
  }

  lemma {:induction false} ReallocShrunk(h: Heap, ptr: int, bytes: nat)
    requires Wf(h) && (ptr == NULL || Live(h, ptr)) && ReallocPath(h, ptr, bytes) == Shrunk
    ensures var (h', q) := Realloc(h, ptr, bytes); ReallocOk(h, ptr, bytes, h', q, Peak(h, OpRealloc(ptr, bytes)))
  {
    ShrinkSound(h, ptr, Request(bytes));
  }

  lemma {:induction false} ReallocSound(h: Heap, ptr: int, bytes: nat)
    requires Wf(h) && (ptr == NULL || Live(h, ptr))
    ensures var (h', q) := Realloc(h, ptr, bytes); ReallocOk(h, ptr, bytes, h', q, Peak(h, OpRealloc(ptr, bytes)))
  {
    match ReallocPath(h, ptr, bytes)
    case Freed => ReallocFreed(h, ptr, bytes);
    case Fresh => ReallocFresh(h, ptr, bytes);
    case Grown => ReallocGrown(h, ptr, bytes);
    case Moved => ReallocMoved(h, ptr, bytes);
    case Same => ReallocSame(h, ptr, bytes);
    case Shrunk => ReallocShrunk(h, ptr, bytes);
  }

  /** A request is the bytes rounded up to the alignment, or the minimum; asked again it stays, but for
      the minimum, which is not a multiple. */
  lemma {:induction false} RequestIs(bytes: nat)
    ensures var n := Request(bytes);
            && 4 * n >= bytes && n >= MINIALLOC && (n == MINIALLOC || (n % 2 == 0 && 4 * n < bytes + 8))
            && Request(4 * n) == if n == MINIALLOC then 4 else n
  {
  }

  ghost predicate NoneHolds(h: Heap, n: int) {
    forall i | 0 <= i < |h.blocks| && !h.blocks[i].used :: h.blocks[i].size < n
  }

  /** Which of its ways a reallocation takes, read off the block at `k`, the one behind it and the free
      blocks: it keeps its place when it fits or can grow into the next block, and fails exactly when it
      cannot, and no other block can take it. */
  lemma {:induction false} ReallocResult(h: Heap, k: nat, bytes: nat)
    requires Wf(h) && k + 1 < |h.blocks| && h.blocks[k].used && bytes > 0
    ensures var (b, nx, ptr, n) := (h.blocks[k], h.blocks[k + 1], h.blocks[k].addr + HEADER, Request(bytes));
            var (m, room) := (Request(4 * n), !nx.used && nx.size + b.size > n + MINIALLOC);
            && Live(h, ptr)
            && var (h', q) := Realloc(h, ptr, bytes);
               && (q == NULL <==> n > b.size && !room && (m >= h.available || NoneHolds(h, m)))
               && (q == ptr <==> n <= b.size || room)
               && (q != NULL ==> Live(h', q))
               && (n > b.size && room ==> SizeOf(h', q) == n)
               && (n > b.size && !room && q != NULL ==>
                     !Live(h, q) && !Live(h', ptr) && m <= SizeOf(h', q) < m + HEADER + MINIALLOC)
               && (n <= b.size <= n + HEADER + MINIALLOC ==> h' == h)
               && (n + HEADER + MINIALLOC < b.size ==> SizeOf(h', q) == n)
  {
    hide Alloc, Changed, GrowAt, ShrinkAt, FreeAt, Free;
    IndexOfAddr(h.blocks, h.start, h.start + h.pool, k);
    NullIsDead(h);
    var (b, nx, ptr, n) := (h.blocks[k], h.blocks[k + 1], h.blocks[k].addr + HEADER, Request(bytes));
    assert Live(h, ptr);
    hide Wf, Live, SizeOf;
    if n > b.size {
      if !nx.used && nx.size + b.size > n + MINIALLOC {
        GrowSound(h, ptr, n);
      } else {
        MoveResult(h, ptr, Request(4 * n));
      }
    } else if n + HEADER + MINIALLOC < b.size {
      ShrinkSound(h, ptr, n);
    }
  }

  /** A reallocation of NULL is an allocation: it fails exactly when no free block can take it. */
  lemma {:induction false} ReallocNull(h: Heap, bytes: nat)
    requires Wf(h) && bytes > 0
    ensures var ((h', q), m) := (Realloc(h, NULL, bytes), Request(4 * Request(bytes)));
            && (q == NULL <==> m >= h.available || NoneHolds(h, m)) && (q == NULL ==> h' == h)
            && (q != NULL ==> Changed(h, h', NULL, q) && !Live(h, q) && Live(h', q))
            && (q != NULL ==> m <= SizeOf(h', q) < m + HEADER + MINIALLOC)
  {
    hide Wf, Alloc, Live, SizeOf;
    AllocSound(h, Request(4 * Request(bytes)));
  }

  lemma {:induction false} MoveResult(h: Heap, ptr: int, n: int)
    requires Wf(h) && Live(h, ptr) && MINIALLOC <= n
    ensures var (h1, q) := Alloc(h, n);
            && (q == NULL <==> n >= h.available || NoneHolds(h, n))
            && (q != NULL ==>
                && q != ptr && !Live(h, q) && Live(Free(h1, ptr), q) && !Live(Free(h1, ptr), ptr)
                && n <= SizeOf(Free(h1, ptr), q) < n + HEADER + MINIALLOC)
  {
    hide Wf, Alloc, Free, Live, SizeOf;
    AllocSound(h, n);
    NullIsDead(h);
    var (h1, q) := Alloc(h, n);
    if q != NULL {
      assert Live(h1, ptr);
      FreeSound(h1, ptr);
      ChangedTwice(h, h1, Free(h1, ptr), ptr, q);
    }
  }

  // ---- every run ----

  lemma {:induction false} StepSound(h: Heap, op: Op)
    requires Wf(h) && Legal(h, op)
    ensures var h' := Step(h, op).0; Wf(h') && h'.pool == h.pool && h'.maxUsed == Max(h.maxUsed, Peak(h, op))
  {
    match op
    case OpAlloc(bytes) => AllocSound(h, Request(bytes));
    case OpFree(ptr) => if ptr != NULL { FreeSound(h, ptr); }
    case OpRealloc(ptr, bytes) => ReallocSound(h, ptr, bytes);
  }

  /** After every run of allocations, frees and reallocations the blocks tile the pool, the free ring
      holds every unused block once, no two neighbours are free, the tail is used, the counter of
      available words is exact and the high-water mark is the peak of the run. */
  lemma {:induction false} RunSound(h: Heap, ops: seq<Op>)
    requires Wf(h) && LegalRun(h, ops)
    ensures Wf(Run(h, ops)) && Run(h, ops).maxUsed == Max(h.maxUsed, RunPeak(h, ops))
    decreases |ops|
  {
    if ops != [] {
      StepSound(h, ops[0]);
      RunSound(Step(h, ops[0]).0, ops[1..]);
    }
  }

  lemma {:induction false} InitSound(start: int, pool: int)
    requires 0 < start && 2 * HEADER <= pool
    ensures Wf(Init(start, pool)) && Init(start, pool).maxUsed == pool - Init(start, pool).available
  {
    var (h, x, y) := (Init(start, pool), Init(start, pool).blocks[0], Init(start, pool).blocks[1]);
    TilesOf2(x, y);
    forall a ensures Occurs(h.free, a) == Unused(h.blocks, a) {
      CountsOf1(x, a); CountsOf1(y, a); CountsOf2(x, y, a);
      assert [start] == [start] + [];
      FrontOccurs([], start, a);
    }
    CountsOf1(x, 0); CountsOf1(y, 0); CountsOf2(x, y, 0);
  }

  // ---- freeing undoes allocating ----

  lemma {:induction false} SpliceTwice(b: seq<Block>, k: nat, mid: seq<Block>)
    requires k < |b|
    ensures var s := Splice(b, k, k + 1, mid); k + |mid| <= |s| && Splice(s, k, k + |mid|, [b[k]]) == b
  {
    var s := Splice(b, k, k + 1, mid);
    assert s[..k] == b[..k] && s[k + |mid|..] == b[k + 1..];
    assert b == b[..k] + [b[k]] + b[k + 1..];
  }

  lemma {:induction false} SpliceAt(b: seq<Block>, k: nat, mid: seq<Block>)
    requires k + 1 < |b|
    ensures var s := Splice(b, k, k + 1, mid);
            && |s| == |b| - 1 + |mid| && s[k + |mid|] == b[k + 1] && (k > 0 ==> s[k - 1] == b[k - 1])
            && forall i | 0 <= i < |mid| :: s[k + i] == mid[i]
  {
  }

  lemma {:induction false} AllocAtFreeAt(h: Heap, k: nat, n: int)
    requires k + 1 < |h.blocks| && !h.blocks[k].used && h.blocks[k + 1].used && (k > 0 ==> h.blocks[k - 1].used)
    ensures var h' := AllocAt(h, k, n);
            k < |h'.blocks| && h'.blocks[k].addr == h.blocks[k].addr
            && FreeAt(h', k).blocks == h.blocks && FreeAt(h', k).available == h.available
  {
    hide Splice, Without;
    var (mid, h') := (AllocRun(h.blocks[k], n), AllocAt(h, k, n));
    SpliceTwice(h.blocks, k, mid);
    SpliceAt(h.blocks, k, mid);
    assert h'.blocks[k + 0] == mid[0] && (|mid| == 2 ==> h'.blocks[k + 1] == mid[1]);
    assert MergeFrom(h'.blocks, k) == k && MergeTo(h'.blocks, k) == k + |mid|;
  }

  lemma {:induction false} FreeIsFreeAt(h: Heap, k: nat)
    requires Wf(h) && k < |h.blocks|
    ensures Free(h, h.blocks[k].addr + HEADER) == FreeAt(h, k)
  {
    NullIsDead(h);
    IndexOfAddr(h.blocks, h.start, h.start + h.pool, k);
  }

  lemma {:induction false} AllocAtFree(h: Heap, k: nat, n: int)
    requires k + 1 < |h.blocks| && !h.blocks[k].used && h.blocks[k + 1].used && (k > 0 ==> h.blocks[k - 1].used)
    requires Wf(AllocAt(h, k, n))
    ensures var h' := Free(AllocAt(h, k, n), h.blocks[k].addr + HEADER);
            h'.blocks == h.blocks && h'.available == h.available
  {
    AllocAtFreeAt(h, k, n);
    FreeIsFreeAt(AllocAt(h, k, n), k);
  }

  /** Freeing a block that was just allocated restores the same blocks and the same count. */
  lemma {:induction false} AllocThenFree(h: Heap, n: int)
    requires Wf(h) && MINIALLOC <= n && Alloc(h, n).1 != NULL
    ensures var (h', ptr) := Alloc(h, n);
            Free(h', ptr).blocks == h.blocks && Free(h', ptr).available == h.available
  {
    var k := AllocBlock(h, n);
    Around(h, k);
    AllocAtFree(h, k, n);
  }
}
