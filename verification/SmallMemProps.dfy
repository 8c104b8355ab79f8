/** What rt_malloc, rt_free and rt_realloc keep, over every run. */
module SmallMemProps {
  import opened SmallMemSpec

  // ---- chains ----

  lemma {:induction false} ChainMono(bs: seq<Block>, end: nat, i: nat, j: nat)
    requires Chain(bs, end) && i < j <= |bs|
    ensures Next(bs[i]) <= Edge(bs, end, j)
    decreases j
  {
    if i + 1 < j {
      ChainMono(bs, end, i, j - 1);
      assert Linked(bs, end, j - 1);
    } else {
      assert Linked(bs, end, i);
    }
  }

  lemma {:induction false} ChainDistinct(bs: seq<Block>, end: nat, i: nat, j: nat)
    requires Chain(bs, end) && i < |bs| && j < |bs| && bs[i].at == bs[j].at
    ensures i == j
  {
    if i < j { ChainMono(bs, end, i, j); }
    if j < i { ChainMono(bs, end, j, i); }
  }

  lemma {:induction false} IndexIs(bs: seq<Block>, end: nat, i: nat)
    requires Chain(bs, end) && i < |bs|
    ensures IndexOf(bs, bs[i].at) == i
  {
    IndexUpto(bs, bs[i].at, i);
    ChainDistinct(bs, end, IndexOf(bs, bs[i].at), i);
  }

  lemma {:induction false} IndexUpto(bs: seq<Block>, o: nat, i: nat)
    requires i < |bs| && bs[i].at == o
    ensures IndexOf(bs, o) <= i
    decreases i
  {
    if i > 0 && bs[0].at != o { IndexUpto(bs[1..], o, i - 1); }
  }

  lemma {:induction false} IndexEnd(bs: seq<Block>, end: nat)
    requires Chain(bs, end)
    ensures IndexOf(bs, end) == |bs|
  {
    var i := IndexOf(bs, end);
    if i < |bs| { ChainMono(bs, end, i, |bs|); }
  }

  lemma {:induction false} ExtentJoin(a: seq<Block>, b: seq<Block>)
    ensures Extent(a + b) == Extent(a) + Extent(b)
    decreases |a|
  {
    if a == [] {
      assert a + b == b;
    } else {
      ExtentJoin(a[1..], b);
      assert (a + b)[1..] == a[1..] + b;
    }
  }

  lemma {:induction false} ExtentSplice(a: seq<Block>, m: seq<Block>, m': seq<Block>, b: seq<Block>)
    ensures Extent(a + m' + b) - Extent(m') == Extent(a + m + b) - Extent(m)
  {
    ExtentJoin(a + m', b);
    ExtentJoin(a, m');
    ExtentJoin(a + m, b);
    ExtentJoin(a, m);
  }

  lemma {:induction false} ExtentTwo(b: Block, c: Block)
    ensures Extent([b]) == if b.used then HEADER + b.size else 0
    ensures Extent([b, c]) == Extent([b]) + Extent([c])
  {
    assert [b][1..] == [] && [b, c][1..] == [c];
  }

  lemma {:induction false} ExtentHas(bs: seq<Block>, i: nat)
    requires i < |bs| && bs[i].used
    ensures Extent(bs) >= HEADER + bs[i].size
    decreases i
  {
    if i > 0 { ExtentHas(bs[1..], i - 1); }
  }

  /** The used blocks of two chains are the same. */
  ghost predicate SameUsed(bs: seq<Block>, bs': seq<Block>) {
    forall b: Block :: b.used ==> (b in bs <==> b in bs')
  }

  ghost predicate Tail(bs: seq<Block>) { bs != [] && bs[|bs| - 1].size >= MIN_ALIGNED }

  lemma {:induction false} AlignedSum(a: nat, b: nat)
    requires Aligned(a) && Aligned(b)
    ensures Aligned(a + b) && (a >= b ==> Aligned(a - b)) && Aligned(a + HEADER)
            && (a >= HEADER ==> Aligned(a - HEADER))
  {
  }

  /** Replacing `n` blocks from `i` on by blocks that tile the same stretch. */
  lemma {:induction false} ChainSplice(bs: seq<Block>, end: nat, i: nat, n: nat, m: seq<Block>, e: nat)
    requires Chain(bs, end) && 1 <= n && i + n <= |bs| && m != [] && e == Edge(bs, end, i + n)
    requires m[0].at == bs[i].at && forall j: nat | j < |m| :: Linked(m, e, j)
    ensures Chain(bs[..i] + m + bs[i + n..], end)
  {
    hide Aligned, Next;
    var r := bs[..i] + m + bs[i + n..];
    forall j: nat | j < |r| ensures Linked(r, end, j) {
      if j < i {
        assert Linked(bs, end, j);
      } else if j < i + |m| {
        assert Linked(m, e, j - i);
      } else {
        assert Linked(bs, end, j - |m| + n);
      }
    }
  }

  lemma {:induction false} JoinSound(bs: seq<Block>, end: nat, i: nat)
    requires Chain(bs, end) && i + 1 < |bs| && !bs[i].used && !bs[i + 1].used
    ensures Chain(Join(bs, i), end) && Extent(Join(bs, i)) == Extent(bs) && (Tail(bs) ==> Tail(Join(bs, i)))
  {
    hide Extent, Aligned;
    var m := Block(bs[i].at, bs[i].size + HEADER + bs[i + 1].size, false);
    assert Linked(bs, end, i) && Linked(bs, end, i + 1);
    AlignedSum(bs[i].size, bs[i + 1].size);
    AlignedSum(bs[i].size + bs[i + 1].size, bs[i].size);
    assert Aligned(m.size) by { assert m.size == bs[i].size + bs[i + 1].size + HEADER; }
    assert Linked([m], Edge(bs, end, i + 2), 0);
    ChainSplice(bs, end, i, 2, [m], Edge(bs, end, i + 2));
    assert bs == bs[..i] + [bs[i], bs[i + 1]] + bs[i + 2..];
    ExtentSplice(bs[..i], [bs[i], bs[i + 1]], [m], bs[i + 2..]);
    ExtentTwo(bs[i], bs[i + 1]);
    ExtentTwo(bs[i + 1], m);
    ExtentTwo(m, m);
  }

  lemma {:induction false} JoinPlaces(bs: seq<Block>, i: nat)
    requires i + 1 < |bs|
    ensures var r := Join(bs, i);
            && |r| == |bs| - 1 && (forall j | 0 <= j < i :: r[j] == bs[j])
            && (forall j | i < j < |r| :: r[j] == bs[j + 1])
            && r[i].used == bs[i].used && r[i].at == bs[i].at
  {
  }

  lemma {:induction false} JoinBlocks(bs: seq<Block>, i: nat)
    requires i + 1 < |bs| && !bs[i].used && !bs[i + 1].used
    ensures SameUsed(bs, Join(bs, i))
    ensures forall o: nat :: o != bs[i + 1].at && FreeAt(bs, o) ==> FreeAt(Join(bs, i), o)
    ensures forall j | 0 <= j < |Join(bs, i)| && !Join(bs, i)[j].used :: FreeAt(bs, Join(bs, i)[j].at)
  {
    var r := Join(bs, i);
    var m := r[i];
    assert forall j | 0 <= j < i :: r[j] == bs[j];
    assert forall j | i + 1 < j < |bs| :: r[j - 1] == bs[j];
    forall b: Block | b.used && b in bs ensures b in r {
      var j :| 0 <= j < |bs| && bs[j] == b;
      assert b == if j < i then r[j] else r[j - 1];
    }
    forall o: nat | o != bs[i + 1].at && FreeAt(bs, o) ensures FreeAt(r, o) {
      var j :| 0 <= j < |bs| && bs[j].at == o && !bs[j].used;
      assert r[if j <= i then j else j - 1].at == o;
    }
    forall j | 0 <= j < |r| && !r[j].used ensures FreeAt(bs, r[j].at) {
      assert bs[if j <= i then j else j + 1].at == r[j].at;
    }
  }

  /** No free block starts below `l`. */
  ghost predicate Low(bs: seq<Block>, l: nat) {
    forall i | 0 <= i < |bs| && !bs[i].used :: l <= bs[i].at
  }

  ghost predicate Marks(bs: seq<Block>, l: nat, end: nat) { l == end || FreeAt(bs, l) }

  /** What a merge keeps of chain `bs` with free pointer `l`. */
  ghost predicate Merged(bs: seq<Block>, l: nat, bs': seq<Block>, l': nat, end: nat) {
    && Chain(bs', end) && Extent(bs') == Extent(bs) && (Tail(bs) ==> Tail(bs')) && SameUsed(bs, bs')
    && Marks(bs', l', end) && (Low(bs, l) ==> Low(bs', l'))
  }

  lemma {:induction false} MergeSound(bs: seq<Block>, l: nat, i: nat, end: nat)
    requires Chain(bs, end) && i + 1 < |bs| && !bs[i].used && !bs[i + 1].used && Marks(bs, l, end)
    ensures Merged(bs, l, Join(bs, i), if l == bs[i + 1].at then bs[i].at else l, end)
  {
    hide Extent, Chain, Join, SameUsed;
    var r, l' := Join(bs, i), if l == bs[i + 1].at then bs[i].at else l;
    JoinSound(bs, end, i);
    JoinBlocks(bs, i);
    ChainOrder(bs, end, i);
    assert FreeAt(bs, bs[i].at);
    if Low(bs, l) {
      forall j | 0 <= j < |r| && !r[j].used ensures l' <= r[j].at {
        var k :| 0 <= k < |bs| && bs[k].at == r[j].at && !bs[k].used;
        assert l <= bs[i].at;
      }
    }
  }

  lemma {:induction false} ChainOrder(bs: seq<Block>, end: nat, i: nat)
    requires Chain(bs, end) && i + 1 < |bs|
    ensures bs[i].at < bs[i + 1].at < end && Next(bs[i]) == bs[i + 1].at
  {
    assert Linked(bs, end, i);
    ChainMono(bs, end, i + 1, |bs|);
  }

  /** plug_holes on a free block whose neighbours may be free too. */
  lemma {:induction false} PlugSound(bs: seq<Block>, l: nat, i: nat, end: nat)
    requires Chain(bs, end) && i < |bs| && !bs[i].used && Apart(bs, i) && Marks(bs, l, end)
    ensures var (bs', l') := Plug(bs, l, i); Merged(bs, l, bs', l', end) && Apart(bs', -2)
  {
    hide Extent, Chain, Marks, Low, Tail, SameUsed, Aligned, Merged, Join;
    MergedSame(bs, l, end);
    var (bs1, l1) := Forward(bs, l, i);
    if i + 1 < |bs| && !bs[i + 1].used {
      MergeSound(bs, l, i, end);
      JoinPlaces(bs, i);
    }
    MergedChain(bs, l, bs1, l1, end);
    forall j: nat | 0 < j < |bs1| && j != i && j != i + 1 ensures Pair(bs1, j) {
      assert Pair(bs, if bs1 == bs || j < i then j else j + 1);
    }
    assert i + 1 < |bs1| ==> bs1[i + 1].used by { if i + 2 < |bs| { assert Pair(bs, i + 2); } }
    if i > 0 && !bs1[i - 1].used {
      MergeSound(bs1, l1, i - 1, end);
      JoinPlaces(bs1, i - 1);
      var (bs2, l2) := Backward(bs1, l1, i);
      MergedTwice(bs, l, bs1, l1, bs2, l2, end);
      forall j: nat | 0 < j < |bs2| ensures Pair(bs2, j) {
        if j < i { assert Pair(bs1, j); } else if j > i { assert Pair(bs1, j + 1); }
      }
    } else {
      forall j: nat | 0 < j < |bs1| ensures Pair(bs1, j) { assert j != i && j != i + 1 ==> Pair(bs1, j); }
    }
  }

  lemma {:induction false} MergedSame(bs: seq<Block>, l: nat, end: nat)
    requires Chain(bs, end) && Marks(bs, l, end)
    ensures Merged(bs, l, bs, l, end)
  {
  }

  lemma {:induction false} MergedChain(bs: seq<Block>, l: nat, bs': seq<Block>, l': nat, end: nat)
    requires Merged(bs, l, bs', l', end)
    ensures Chain(bs', end) && Marks(bs', l', end)
  {
  }

  lemma {:induction false} MergedTwice(bs: seq<Block>, l: nat, bs1: seq<Block>, l1: nat, bs2: seq<Block>, l2: nat,
          end: nat)
    requires Merged(bs, l, bs1, l1, end) && Merged(bs1, l1, bs2, l2, end)
    ensures Merged(bs, l, bs2, l2, end)
  {
  }

  lemma {:induction false} CutSound(bs: seq<Block>, end: nat, i: nat, s: nat)
    requires Chain(bs, end) && i < |bs| && s + HEADER <= bs[i].size && Aligned(s)
    ensures var r := Cut(bs, i, s);
            && Chain(r, end)
            && Extent(r) == Extent(bs) - (if bs[i].used then bs[i].size - s else 0)
            && (Tail(bs) && bs[i].size >= s + HEADER + MIN_ALIGNED ==> Tail(r))
  {
    hide Extent, Aligned;
    var (b, c) := (Block(bs[i].at, s, bs[i].used), Block(bs[i].at + HEADER + s, bs[i].size - s - HEADER, false));
    assert Linked(bs, end, i);
    AlignedSum(bs[i].at, s);
    AlignedSum(bs[i].at + s, s);
    AlignedSum(bs[i].size, s);
    AlignedSum(bs[i].size - s, s);
    assert Aligned(c.at) by { assert c.at == bs[i].at + s + HEADER; }
    var e := Edge(bs, end, i + 1);
    assert Linked([b, c], e, 0) && Linked([b, c], e, 1);
    ChainSplice(bs, end, i, 1, [b, c], e);
    assert bs == bs[..i] + [bs[i]] + bs[i + 1..];
    ExtentSplice(bs[..i], [bs[i]], [b, c], bs[i + 1..]);
    ExtentTwo(bs[i], b);
    ExtentTwo(b, c);
    ExtentTwo(c, c);
  }

  lemma {:induction false} MarkSound(bs: seq<Block>, end: nat, i: nat, used: bool)
    requires Chain(bs, end) && i < |bs| && bs[i].used != used
    ensures var r := Mark(bs, i, used);
            && Chain(r, end) && Tail(r) == Tail(bs)
            && Extent(r) == (if used then Extent(bs) + HEADER + bs[i].size else Extent(bs) - HEADER - bs[i].size)
  {
    hide Extent, Aligned;
    var (r, b) := (Mark(bs, i, used), bs[i].(used := used));
    assert Linked(bs, end, i);
    assert Linked([b], Edge(bs, end, i + 1), 0);
    ChainSplice(bs, end, i, 1, [b], Edge(bs, end, i + 1));
    assert bs == bs[..i] + [bs[i]] + bs[i + 1..] && r == bs[..i] + [b] + bs[i + 1..];
    ExtentSplice(bs[..i], [bs[i]], [b], bs[i + 1..]);
    ExtentTwo(bs[i], b);
    ExtentTwo(b, b);
  }

  // ---- the search ----

  lemma {:induction false} FirstFreeIs(bs: seq<Block>, i: nat, end: nat)
    requires i <= |bs|
    ensures var l := FirstFree(bs, i, end); l == end || FreeAt(bs, l)
    ensures Chain(bs, end) ==> forall j | i <= j < |bs| && !bs[j].used :: FirstFree(bs, i, end) <= bs[j].at
    decreases |bs| - i
  {
    if i < |bs| {
      if bs[i].used {
        FirstFreeIs(bs, i + 1, end);
      } else if Chain(bs, end) {
        forall j | i < j < |bs| ensures bs[i].at <= bs[j].at { ChainMono(bs, end, i, j); }
      }
    }
  }

  /** The search misses only blocks at or past the limit. */
  lemma {:induction false} SearchFirst(bs: seq<Block>, end: nat, i: nat, s: nat, limit: int)
    requires Chain(bs, end) && i <= |bs|
    ensures var j := Search(bs, i, s, limit);
            forall k | i <= k < j && k < |bs| && !bs[k].used && bs[k].size >= s :: bs[k].at >= limit
    decreases |bs| - i
  {
    if i < |bs| {
      if bs[i].at >= limit {
        forall k | i < k < |bs| ensures bs[k].at >= limit { ChainMono(bs, end, i, k); }
      } else if bs[i].used || bs[i].size < s {
        SearchFirst(bs, end, i + 1, s, limit);
      }
    }
  }

  // ---- rt_malloc ----

  /** Nothing changes in the used blocks of `h` but for block `b`. */
  ghost predicate OthersLive(h: Heap, h': Heap, b: Block) {
    forall c: Block | c in h.blocks && c.used && c != b :: c in h'.blocks
  }

  lemma {:induction false} RoundIs(n: nat)
    requires n < WORD
    ensures Round(n) < WORD && Round(Round(n)) == Round(n)
    ensures Aligned(Round(n)) && Aligned(Wanted(n)) && (n <= WORD - ALIGN <==> n <= Round(n))
            && (n <= WORD - ALIGN ==> Round(n) < n + ALIGN)
  {
  }

  lemma {:induction false} TakeBlocks(h: Heap, i: nat, s: nat)
    requires Wf(h) && i < |h.blocks| && !h.blocks[i].used && s <= h.blocks[i].size && Aligned(s)
    ensures var bs := Take(h, i, s).blocks;
            && i < |bs| && Chain(bs, End(h)) && Tail(bs) && Extent(bs) == Take(h, i, s).used
            && bs[i].used && bs[i].at == h.blocks[i].at && s <= bs[i].size < s + HEADER + MIN_ALIGNED
  {
    hide Extent, FirstFree, Chain, Apart;
    var b := h.blocks[i];
    if b.size >= s + HEADER + MIN_ALIGNED {
      CutSound(h.blocks, End(h), i, s);
      MarkSound(Cut(h.blocks, i, s), End(h), i, true);
    } else {
      MarkSound(h.blocks, End(h), i, true);
    }
  }

  lemma {:induction false} TakeApart(h: Heap, i: nat, s: nat)
    requires Wf(h) && i < |h.blocks| && !h.blocks[i].used && s <= h.blocks[i].size
    ensures Apart(Take(h, i, s).blocks, -2)
  {
    hide Extent, FirstFree, Chain, Aligned, FreeAt, Take;
    var (bs, b) := (Take(h, i, s).blocks, h.blocks[i]);
    var k := if b.size >= s + HEADER + MIN_ALIGNED then 1 else 0;
    TakePlaces(h, i, s);
    forall j: nat | 0 < j < |bs| ensures Pair(bs, j) {
      if j < i { assert Pair(h.blocks, j); }
      else if j == i + 2 && k == 1 { assert Pair(h.blocks, i + 1); }
      else if j > i + 1 + k { assert Pair(h.blocks, j - k); }
    }
  }

  /** Where the blocks of the old chain stand in the new one. */
  lemma {:induction false} TakePlaces(h: Heap, i: nat, s: nat)
    requires i < |h.blocks| && s <= h.blocks[i].size
    ensures var (bs, bs') := (h.blocks, Take(h, i, s).blocks);
            var k := if bs[i].size >= s + HEADER + MIN_ALIGNED then 1 else 0;
            && |bs'| == |bs| + k && (forall j | 0 <= j < i :: bs'[j] == bs[j])
            && (forall j | i < j < |bs| :: bs'[j + k] == bs[j])
            && (forall j | i + k < j < |bs'| :: bs'[j] == bs[j - k])
            && bs'[i].used && (k == 1 ==> bs'[i + 1] == Block(bs[i].at + HEADER + s, bs[i].size - s - HEADER, false))
  {
    hide FirstFree;
  }

  lemma {:induction false} TakeFree(h: Heap, i: nat, s: nat)
    requires Wf(h) && i < |h.blocks| && !h.blocks[i].used && s <= h.blocks[i].size && Aligned(s)
    ensures Marks(Take(h, i, s).blocks, Take(h, i, s).lfree, End(h))
  {
    hide Extent, Chain, FirstFree, Apart, Cut, Mark, Aligned;
    var (h', bs) := (Take(h, i, s), h.blocks);
    TakePlaces(h, i, s);
    FirstFreeIs(h'.blocks, i, End(h));
    if bs[i].at != h.lfree && h.lfree != End(h) {
      var j :| 0 <= j < |bs| && bs[j].at == h.lfree && !bs[j].used;
      var k := if bs[i].size >= s + HEADER + MIN_ALIGNED then 1 else 0;
      assert h'.blocks[if j < i then j else j + k] == bs[j];
    }
  }

  lemma {:induction false} TakeLive(h: Heap, i: nat, s: nat)
    requires i < |h.blocks| && !h.blocks[i].used && s <= h.blocks[i].size
    ensures OthersLive(h, Take(h, i, s), h.blocks[i])
  {
    hide FirstFree, Cut, Mark, Take;
    var (h', bs) := (Take(h, i, s), h.blocks);
    var k := if bs[i].size >= s + HEADER + MIN_ALIGNED then 1 else 0;
    TakePlaces(h, i, s);
    forall c: Block | c in bs && c.used ensures c in h'.blocks {
      var j :| 0 <= j < |bs| && bs[j] == c;
      assert c == h'.blocks[if j < i then j else j + k];
    }
  }

  lemma {:induction false} TakeSound(h: Heap, i: nat, s: nat)
    requires Wf(h) && i < |h.blocks| && !h.blocks[i].used && s <= h.blocks[i].size && Aligned(s)
    ensures var h' := Take(h, i, s); Wf(h') && h'.msa == h.msa && h'.max == Max(h.max, h'.used)
  {
    hide Extent, Chain, FirstFree, Apart, Cut, Mark, Aligned, FreeAt;
    TakeBlocks(h, i, s);
    TakeApart(h, i, s);
    TakeFree(h, i, s);
  }

  lemma {:induction false} TakeLow(h: Heap, i: nat, s: nat)
    requires Wf(h) && i < |h.blocks| && !h.blocks[i].used && s <= h.blocks[i].size && Aligned(s)
             && Low(h.blocks, h.lfree)
    ensures Low(Take(h, i, s).blocks, Take(h, i, s).lfree)
  {
    hide Extent, Chain, FirstFree, Apart, Cut, Mark, Aligned;
    TakeBlocks(h, i, s);
    TakePlaces(h, i, s);
    var (h', b) := (Take(h, i, s), h.blocks[i]);
    var (bs, bs') := (h.blocks, h'.blocks);
    var k := if b.size >= s + HEADER + MIN_ALIGNED then 1 else 0;
    FirstFreeIs(bs', i, End(h));
    forall j | 0 <= j < |bs'| && !bs'[j].used ensures h'.lfree <= bs'[j].at {
      if j < i {
        assert h.lfree <= bs[j].at;
        ChainMono(bs, End(h), j, i);
      } else if j == i + k && k == 1 {
        assert h.lfree <= bs[i].at;
      } else {
        assert h.lfree <= bs[j - k].at;
      }
    }
  }

  /** rt_malloc keeps the invariant; a block it gives out was free, is aligned, and holds at least the
      request and less than a further block's worth more; every block in use stays. */
  lemma {:induction false} MallocSound(h: Heap, n: nat)
    requires Wf(h) && n < WORD
    ensures var (h', p) := Malloc(h, n);
            && Wf(h') && h'.msa == h.msa && h'.max == (if p.Null? then h.max else Max(h.max, h'.used))
            && (Low(h.blocks, h.lfree) ==> Low(h'.blocks, h'.lfree))
            && (p.Null? ==> h' == h)
            && (p.At? ==> exists i, j ::
                  && 0 <= i < |h.blocks| && !h.blocks[i].used && h.blocks[i].at + HEADER == p.off && Aligned(p.off)
                  && 0 <= j < |h'.blocks| && h'.blocks[j].used && h'.blocks[j].at + HEADER == p.off
                  && Wanted(n) <= h'.blocks[j].size < Wanted(n) + HEADER + MIN_ALIGNED
                  && OthersLive(h, h', h.blocks[i]))
  {
    hide Extent, Search, FirstFree, Apart, OthersLive, Low, Chain, Aligned, FreeAt, Round, Take;
    var i := Found(h, n);
    if i < |h.blocks| {
      var s := Wanted(n);
      RoundIs(n);
      SearchFits(h.blocks, IndexOf(h.blocks, h.lfree), s, h.msa - s);
      TakeBlocks(h, i, s);
      TakeSound(h, i, s);
      TakeLive(h, i, s);
      if Low(h.blocks, h.lfree) { TakeLow(h, i, s); }
      AlignedBlock(h, i);
      var h' := Take(h, i, s);
      assert h'.blocks[i].used && h'.blocks[i].at + HEADER == h.blocks[i].at + HEADER;
    }
  }

  lemma {:induction false} AlignedBlock(h: Heap, i: nat)
    requires Wf(h) && i < |h.blocks|
    ensures Aligned(h.blocks[i].at + HEADER)
  {
    assert Linked(h.blocks, End(h), i);
  }

  /** A free block large enough for `s`, before the offset where the search loop stops. */
  ghost predicate Usable(h: Heap, i: nat, s: nat) {
    i < |h.blocks| && !h.blocks[i].used && h.blocks[i].size >= s && h.blocks[i].at != h.msa - s
  }

  /** While `lfree` is the lowest free block, searching from it is first fit from the start: rt_malloc
      takes the first usable block and fails exactly when there is none.  The one block it passes over
      is an exact fit at the very end of the heap. */
  lemma {:induction false} FirstFit(h: Heap, n: nat)
    requires Wf(h) && Low(h.blocks, h.lfree) && 0 < n < WORD && Round(n) <= h.msa
    ensures var (i, s) := (Found(h, n), Wanted(n));
            && (i < |h.blocks| ==> Usable(h, i, s))
            && (forall k | 0 <= k < i && k < |h.blocks| :: !Usable(h, k, s))
            && (Malloc(h, n).1.Null? <==> forall k | 0 <= k < |h.blocks| :: !Usable(h, k, s))
  {
    hide Extent, Search, FirstFree, Apart, Chain, Aligned, FreeAt, Round, Take, Low;
    var (i0, s) := (IndexOf(h.blocks, h.lfree), Wanted(n));
    var i := Found(h, n);
    SearchFits(h.blocks, i0, s, h.msa - s);
    SearchFirst(h.blocks, End(h), i0, s, h.msa - s);
    FromLowest(h);
    forall k | 0 <= k < i && k < |h.blocks| ensures !Usable(h, k, s) {
      if Usable(h, k, s) { AtMost(h, k, s); }
    }
  }

  lemma {:induction false} AtMost(h: Heap, k: nat, s: nat)
    requires Wf(h) && k < |h.blocks| && h.blocks[k].size >= s
    ensures h.blocks[k].at <= h.msa - s
  {
    ChainMono(h.blocks, End(h), k, |h.blocks|);
  }

  lemma {:induction false} FromLowest(h: Heap)
    requires Wf(h) && Low(h.blocks, h.lfree)
    ensures var i0 := IndexOf(h.blocks, h.lfree);
            i0 <= |h.blocks| && forall k | 0 <= k < i0 && k < |h.blocks| :: h.blocks[k].used
  {
    hide Extent, Apart;
    var i0 := IndexOf(h.blocks, h.lfree);
    if h.lfree == End(h) { IndexEnd(h.blocks, End(h)); }
    forall k | 0 <= k < i0 && k < |h.blocks| ensures h.blocks[k].used {
      if !h.blocks[k].used {
        ChainMono(h.blocks, End(h), k, i0);
        if h.lfree != End(h) {
          var j :| 0 <= j < |h.blocks| && h.blocks[j].at == h.lfree && !h.blocks[j].used;
          IndexIs(h.blocks, End(h), j);
        }
        assert false;
      }
    }
  }

  // ---- rt_free ----

  lemma {:induction false} LiveBlock(h: Heap, p: Ptr)
    requires Wf(h) && Live(h, p)
    ensures var i := BlockOf(h, p);
            && i < |h.blocks| && h.blocks[i].used && h.blocks[i].at + HEADER == p.off
            && h.used >= HEADER + h.blocks[i].size && p.off < End(h)
  {
    var i :| 0 <= i < |h.blocks| && h.blocks[i].used && h.blocks[i].at + HEADER == p.off;
    IndexIs(h.blocks, End(h), i);
    ExtentHas(h.blocks, i);
    ChainMono(h.blocks, End(h), i, |h.blocks|);
    if i < |h.blocks| - 1 {
      ChainOrder(h.blocks, End(h), i);
      ChainMono(h.blocks, End(h), i, i + 1);
      ChainMono(h.blocks, End(h), i + 1, |h.blocks|);
    }
  }

  /** What callers may pass: null, a pointer in use, or one outside the heap, which is left alone. */
  ghost predicate Given(h: Heap, p: Ptr) { p.Null? || p.off >= End(h) || Live(h, p) }

  function Free(h: Heap, p: Ptr): Heap
    requires Wf(h) && Given(h, p)
  {
    if p.Null? || p.off >= End(h) then h
    else
      LiveBlock(h, p);
      Release(h, BlockOf(h, p))
  }

  /** The used blocks after an operation are those before, less `b`. */
  ghost predicate Only(h: Heap, h': Heap, b: Block) {
    forall c: Block | c.used :: c in h'.blocks <==> c in h.blocks && c != b
  }

  lemma {:induction false} UnmarkSound(h: Heap, i: nat)
    requires Wf(h) && i < |h.blocks| && h.blocks[i].used
    ensures var bs := Mark(h.blocks, i, false);
            var l := if h.blocks[i].at < h.lfree then h.blocks[i].at else h.lfree;
            && Marks(bs, l, End(h)) && Apart(bs, i) && (Low(h.blocks, h.lfree) ==> Low(bs, l))
            && forall c: Block | c.used :: c in bs <==> c in h.blocks && c != h.blocks[i]
  {
    hide Extent;
    var (bs, b) := (Mark(h.blocks, i, false), h.blocks[i]);
    assert forall j | 0 <= j < |bs| && j != i :: bs[j] == h.blocks[j];
    assert bs[i].at == b.at && !bs[i].used;
    assert FreeAt(bs, b.at);
    forall j: nat | 0 < j < |bs| && j != i && j != i + 1 ensures Pair(bs, j) { assert Pair(h.blocks, j); }
    if h.lfree != End(h) && h.lfree <= b.at {
      var j :| 0 <= j < |h.blocks| && h.blocks[j].at == h.lfree && !h.blocks[j].used;
      assert bs[j] == h.blocks[j];
    }
    if h.lfree == End(h) { ChainMono(h.blocks, End(h), i, |h.blocks|); }
    forall c: Block | c.used ensures c in bs <==> c in h.blocks && c != b {
      if c in h.blocks && c != b {
        var j :| 0 <= j < |h.blocks| && h.blocks[j] == c;
        assert bs[j] == c;
      }
      if c in bs {
        var j :| 0 <= j < |bs| && bs[j] == c;
        assert j != i && h.blocks[j] == c;
        if c == b { ChainDistinct(h.blocks, End(h), i, j); }
      }
    }
  }

  /** rt_free keeps the invariant, and takes exactly the one block out of use. */
  lemma {:induction false} FreeSound(h: Heap, p: Ptr)
    requires Wf(h) && Live(h, p)
    ensures var h' := Free(h, p);
            && Wf(h') && h'.msa == h.msa && h'.max == h.max
            && BlockOf(h, p) < |h.blocks| && Only(h, h', h.blocks[BlockOf(h, p)])
            && (Low(h.blocks, h.lfree) ==> Low(h'.blocks, h'.lfree))
  {
    hide Extent, Chain, Apart, Low, FreeAt, Plug;
    LiveBlock(h, p);
    assert p.off < End(h);
    var i := BlockOf(h, p);
    var (bs, b) := (Mark(h.blocks, i, false), h.blocks[i]);
    var l := if b.at < h.lfree then b.at else h.lfree;
    MarkSound(h.blocks, End(h), i, false);
    UnmarkSound(h, i);
    PlugSound(bs, l, i, End(h));
    var h' := Free(h, p);
    OnlyThrough(h, bs, h', b);
  }

  lemma {:induction false} OnlyThrough(h: Heap, bs: seq<Block>, h': Heap, b: Block)
    requires SameUsed(bs, h'.blocks) && forall c: Block | c.used :: c in bs <==> c in h.blocks && c != b
    ensures Only(h, h', b)
  {
  }

  // ---- rt_realloc ----

  /** Whether rt_realloc splits the block in place. */
  predicate Splits(b: Block, r: nat) { r + HEADER + MIN_SIZE < b.size }

  lemma {:induction false} ShrinkRoom(h: Heap, i: nat, r: nat)
    requires Wf(h) && i < |h.blocks| && h.blocks[i].used && Aligned(r) && Splits(h.blocks[i], r)
    ensures r + HEADER + MIN_ALIGNED <= h.blocks[i].size && h.used >= h.blocks[i].size
  {
    ExtentHas(h.blocks, i);
    assert Linked(h.blocks, End(h), i);
    AlignedStep(h.blocks[i].size, r);
  }

  lemma {:induction false} AlignedStep(a: nat, b: nat)
    requires Aligned(a) && Aligned(b) && b + HEADER + MIN_SIZE < a
    ensures b + HEADER + MIN_ALIGNED <= a
  {
  }

  lemma {:induction false} CutPlaces(bs: seq<Block>, i: nat, r: nat)
    requires i < |bs| && r + HEADER <= bs[i].size
    ensures var c := Cut(bs, i, r);
            && |c| == |bs| + 1 && (forall j | 0 <= j < i :: c[j] == bs[j])
            && (forall j | i < j < |bs| :: c[j + 1] == bs[j])
            && (forall j | i + 1 < j < |c| :: c[j] == bs[j - 1])
            && c[i] == bs[i].(size := r) && c[i + 1] == Block(bs[i].at + HEADER + r, bs[i].size - r - HEADER, false)
  {
  }

  lemma {:induction false} CutFree(h: Heap, i: nat, r: nat)
    requires Wf(h) && i < |h.blocks| && h.blocks[i].used && r + HEADER <= h.blocks[i].size
    ensures var bs := Cut(h.blocks, i, r);
            i + 1 < |bs| && !bs[i + 1].used && Apart(bs, i + 1) && Marks(bs, h.lfree, End(h))
  {
    hide Extent, Chain, Cut, Aligned;
    var bs := Cut(h.blocks, i, r);
    CutPlaces(h.blocks, i, r);
    if h.lfree != End(h) {
      var j :| 0 <= j < |h.blocks| && h.blocks[j].at == h.lfree && !h.blocks[j].used;
      assert bs[if j < i then j else j + 1] == h.blocks[j];
    }
    forall j: nat | 0 < j < |bs| && j != i + 1 && j != i + 2 ensures Pair(bs, j) {
      assert Pair(h.blocks, if j <= i then j else j - 1);
    }
  }

  lemma {:induction false} CutBlocks(h: Heap, i: nat, r: nat)
    requires Wf(h) && i < |h.blocks| && h.blocks[i].used && r + HEADER <= h.blocks[i].size
    ensures var bs := Cut(h.blocks, i, r);
            forall c: Block | c.used :: c in bs <==> (c in h.blocks && c != h.blocks[i]) || c == h.blocks[i].(size := r)
  {
    hide Extent, Chain, Cut, Aligned, Apart, FreeAt;
    var (bs, b) := (Cut(h.blocks, i, r), h.blocks[i]);
    CutPlaces(h.blocks, i, r);
    forall c: Block | c.used ensures c in bs <==> (c in h.blocks && c != b) || c == b.(size := r) {
      if c in h.blocks && c != b {
        var j :| 0 <= j < |h.blocks| && h.blocks[j] == c;
        assert bs[if j < i then j else j + 1] == c;
      }
      if c in bs && c != b.(size := r) {
        var j :| 0 <= j < |bs| && bs[j] == c;
        var k := if j < i then j else j - 1;
        assert h.blocks[k] == c;
        if c == b { ChainDistinct(h.blocks, End(h), i, k); }
      }
    }
  }

  /** Shrinking in place: the block keeps its address and `r` bytes, every other block in use stays. */
  lemma {:induction false} ShrinkSound(h: Heap, i: nat, r: nat)
    requires Wf(h) && i < |h.blocks| && h.blocks[i].used && Aligned(r) && Splits(h.blocks[i], r)
    ensures r + HEADER <= h.blocks[i].size && h.used >= h.blocks[i].size
    ensures var h' := Shrink(h, i, r);
            && Wf(h') && h'.msa == h.msa && h'.max == h.max
            && forall c: Block | c.used :: c in h'.blocks <==>
               (c in h.blocks && c != h.blocks[i]) || c == h.blocks[i].(size := r)
  {
    hide Extent, Chain, Apart, Low, FreeAt, Plug;
    ShrinkRoom(h, i, r);
    CutSound(h.blocks, End(h), i, r);
    CutBlocks(h, i, r);
    CutFree(h, i, r);
    PlugSound(Cut(h.blocks, i, r), h.lfree, i + 1, End(h));
  }

  /** Shrinking in place leaves `lfree` the lowest free block exactly when it was below the block or is
      the free block right behind it. */
  lemma {:induction false} ShrinkLow(h: Heap, i: nat, r: nat)
    requires Wf(h) && i < |h.blocks| && h.blocks[i].used && Aligned(r) && Splits(h.blocks[i], r)
    requires Low(h.blocks, h.lfree)
    ensures r + HEADER <= h.blocks[i].size && h.used >= h.blocks[i].size
    ensures var (h', b) := (Shrink(h, i, r), h.blocks[i]);
            Low(h'.blocks, h'.lfree) <==> h.lfree < b.at || (h.lfree == Next(b) && Next(b) != End(h))
  {
    hide Extent, Apart, Chain, Cut, Aligned;
    ShrinkRoom(h, i, r);
    var (bs, b, h') := (h.blocks, h.blocks[i], Shrink(h, i, r));
    CutPlaces(bs, i, r);
    NotInside(h, i);
    ChainMono(bs, End(h), i, |bs|);
    if i + 1 < |bs| { ChainOrder(bs, End(h), i); }
    assert h'.blocks[i + 1].at == b.at + HEADER + r && !h'.blocks[i + 1].used;
    if h.lfree < b.at || (h.lfree == Next(b) && Next(b) != End(h)) { ShrinkLowHolds(h, i, r); }
  }

  /** No free block starts strictly between a used block's start and its end. */
  lemma {:induction false} NotInside(h: Heap, i: nat)
    requires Wf(h) && i < |h.blocks| && h.blocks[i].used
    ensures h.lfree < h.blocks[i].at || h.lfree >= Next(h.blocks[i])
    ensures h.lfree == Next(h.blocks[i]) && Next(h.blocks[i]) != End(h) ==> i + 1 < |h.blocks| && !h.blocks[i + 1].used
  {
    hide Extent, Apart;
    ChainMono(h.blocks, End(h), i, |h.blocks|);
    if h.lfree != End(h) {
      var j :| 0 <= j < |h.blocks| && h.blocks[j].at == h.lfree && !h.blocks[j].used;
      if j < i { ChainMono(h.blocks, End(h), j, i); } else { ChainMono(h.blocks, End(h), i, j); }
      if h.lfree == Next(h.blocks[i]) {
        assert Linked(h.blocks, End(h), i);
        assert j > i;
        if j > i + 1 { ChainMono(h.blocks, End(h), i + 1, j); }
      }
    }
  }

  lemma {:induction false} ShrinkLowHolds(h: Heap, i: nat, r: nat)
    requires Wf(h) && i < |h.blocks| && h.blocks[i].used && Aligned(r) && Splits(h.blocks[i], r)
    requires Low(h.blocks, h.lfree) && r + HEADER <= h.blocks[i].size && h.used >= h.blocks[i].size
    requires h.lfree < h.blocks[i].at || (i + 1 < |h.blocks| && !h.blocks[i + 1].used && h.lfree == h.blocks[i + 1].at)
    ensures Low(Shrink(h, i, r).blocks, Shrink(h, i, r).lfree)
  {
    hide Extent, Apart, Chain, Cut, Aligned, FreeAt;
    var (bs, b, h') := (h.blocks, h.blocks[i], Shrink(h, i, r));
    var k := if i + 1 < |bs| && !bs[i + 1].used then 0 else 1;
    CutPlaces(bs, i, r);
    assert h'.blocks[i + 1].at == b.at + HEADER + r;
    if i + 1 < |bs| { ChainOrder(bs, End(h), i); }
    forall j | 0 <= j < |h'.blocks| && !h'.blocks[j].used ensures h'.lfree <= h'.blocks[j].at {
      if j < i {
        assert h'.blocks[j] == bs[j];
        ChainMono(bs, End(h), j, i);
      } else if j > i + 1 {
        assert h'.blocks[j] == bs[j - k];
        ChainMono(bs, End(h), i, j - k);
      }
    }
  }

  function Realloc(h: Heap, p: Ptr, n: nat): (Heap, Ptr)
    requires Wf(h) && n < WORD && Given(h, p)
  {
    var r := Round(n);
    if r > h.msa then (h, Null)
    else if p.Null? then Malloc(h, r)
    else if p.off >= End(h) then (h, p)
    else
      LiveBlock(h, p);
      RoundIs(n);
      var i := BlockOf(h, p);
      if h.blocks[i].size == r then (h, p)
      else if Splits(h.blocks[i], r) then
        ShrinkRoom(h, i, r);
        (Shrink(h, i, r), p)
      else
        MallocSound(h, r);
        MallocLive(h, r, p);
        var (h1, q) := Malloc(h, r);
        if q.Null? then (h1, q) else (Free(h1, p), q)
  }

  lemma {:induction false} MallocLive(h: Heap, n: nat, p: Ptr)
    requires Wf(h) && n < WORD && Live(h, p)
    ensures Live(Malloc(h, n).0, p) && (Malloc(h, n).1 != p)
  {
    hide Extent, Chain, Search, FirstFree, Apart, Aligned, FreeAt, Round, Take, Found;
    MallocSound(h, n);
    LiveBlock(h, p);
    var (h', q) := Malloc(h, n);
    var b := h.blocks[BlockOf(h, p)];
    if q.At? {
      var i :| 0 <= i < |h.blocks| && !h.blocks[i].used && h.blocks[i].at + HEADER == q.off
               && OthersLive(h, h', h.blocks[i]);
      assert b in h'.blocks;
      if q == p { ChainDistinct(h.blocks, End(h), i, BlockOf(h, p)); }
    }
  }

  /** A block in use at data offset `p`. */
  ghost predicate Holds(h: Heap, p: Ptr, least: nat) {
    p.At? && exists i ::
        0 <= i < |h.blocks| && h.blocks[i].used && h.blocks[i].at + HEADER == p.off && least <= h.blocks[i].size
  }

  /** Blocks in use at other addresses are the same after. */
  ghost predicate Undisturbed(h: Heap, h': Heap, p: Ptr) {
    forall c: Block | c in h.blocks && c.used && p != At(c.at + HEADER) :: c in h'.blocks
  }

  /** rt_realloc keeps the invariant and every other block; it fails without changing anything, or
      returns a block of at least the rounded size; a pointer outside the heap comes back as it is. */
  lemma {:induction false} ReallocSound(h: Heap, p: Ptr, n: nat)
    requires Wf(h) && n < WORD && Given(h, p)
    ensures var (h', q) := Realloc(h, p, n);
            && Wf(h') && h'.msa == h.msa && h.max <= h'.max && Undisturbed(h, h', p)
            && (q.Null? ==> h' == h)
            && (q.At? ==> if p.At? && p.off >= End(h) then h' == h && q == p else Holds(h', q, Round(n)))
  {
    hide Extent, Chain, Apart, Aligned, FreeAt, Round, Malloc, Release, Shrink, Low;
    var r := Round(n);
    var (h', q) := Realloc(h, p, n);
    RoundIs(n);
    if r <= h.msa {
      MallocGives(h, r);
      if p.At? && p.off < End(h) {
        LiveBlock(h, p);
        var i := BlockOf(h, p);
        var b := h.blocks[i];
        if b.size != r && Splits(b, r) {
          ShrinkSound(h, i, r);
          assert b.(size := r) in h'.blocks;
        } else if b.size != r && q.At? {
          MallocSound(h, r);
          MallocLive(h, r, p);
          MovedOff(h, Malloc(h, r).0, p, q, r);
        }
      }
    }
  }

  lemma {:induction false} MallocGives(h: Heap, r: nat)
    requires Wf(h) && r < WORD && Round(r) == r
    ensures var (h', q) := Malloc(h, r);
            && Wf(h') && h'.msa == h.msa && h.max <= h'.max && Undisturbed(h, h', Null)
            && (q.Null? ==> h' == h) && (q.At? ==> Holds(h', q, r))
  {
    hide Extent, Chain, Apart, Aligned, FreeAt, Malloc, Low;
    MallocSound(h, r);
    var (h', q) := Malloc(h, r);
    if q.At? {
      var i, j :| 0 <= i < |h.blocks| && !h.blocks[i].used && 0 <= j < |h'.blocks| && h'.blocks[j].used
                  && h'.blocks[j].at + HEADER == q.off && Wanted(r) <= h'.blocks[j].size
                  && OthersLive(h, h', h.blocks[i]);
    }
  }

  lemma {:induction false} MovedOff(h: Heap, h1: Heap, p: Ptr, q: Ptr, r: nat)
    requires Wf(h1) && Live(h1, p) && q != p && Undisturbed(h, h1, Null) && Holds(h1, q, r) && h.max <= h1.max
             && h1.msa == h.msa
    ensures var h' := Free(h1, p);
            Wf(h') && h'.msa == h.msa && h.max <= h'.max && Undisturbed(h, h', p) && Holds(h', q, r)
  {
    hide Extent, Chain, Apart, Aligned, FreeAt, Low, Free;
    FreeSound(h1, p);
    LiveBlock(h1, p);
    var h' := Free(h1, p);
    var k :| 0 <= k < |h1.blocks| && h1.blocks[k].used && h1.blocks[k].at + HEADER == q.off && r <= h1.blocks[k].size;
    assert h1.blocks[k] in h'.blocks;
  }

  // ---- exactly which blocks are in use ----

  /** The blocks in use after are those before, less the one at `p`, and one at `q` of such a size. */
  ghost predicate Swaps(h: Heap, h': Heap, p: Ptr, q: Ptr, least: nat, below: nat) {
    exists b: Block ::
      && b.used && q == At(b.at + HEADER) && least <= b.size < below
      && forall c: Block | c.used :: c in h'.blocks <==> (c in h.blocks && p != At(c.at + HEADER)) || c == b
  }

  lemma {:induction false} TakeExact(h: Heap, i: nat, s: nat)
    requires Wf(h) && i < |h.blocks| && !h.blocks[i].used && s <= h.blocks[i].size && Aligned(s)
    ensures Swaps(h, Take(h, i, s), Null, At(h.blocks[i].at + HEADER), s, s + HEADER + MIN_ALIGNED)
  {
    hide Extent, Chain, FirstFree, Apart, Cut, Mark, Aligned, FreeAt;
    TakeBlocks(h, i, s);
    TakePlaces(h, i, s);
    var (bs, h') := (h.blocks, Take(h, i, s));
    var k := if bs[i].size >= s + HEADER + MIN_ALIGNED then 1 else 0;
    var b := h'.blocks[i];
    forall c: Block | c.used ensures c in h'.blocks <==> c in bs || c == b {
      if c in bs {
        var j :| 0 <= j < |bs| && bs[j] == c;
        assert c == h'.blocks[if j < i then j else j + k];
      }
      if c in h'.blocks {
        var j :| 0 <= j < |h'.blocks| && h'.blocks[j] == c;
        if j < i { assert c == bs[j]; } else if j > i + k { assert c == bs[j - k]; }
      }
    }
  }

  /** A block that rt_malloc gives out is the only new one in use. */
  lemma {:induction false} MallocExact(h: Heap, n: nat)
    requires Wf(h) && n < WORD
    ensures var (h', q) := Malloc(h, n);
            q.At? ==> Swaps(h, h', Null, q, Wanted(n), Wanted(n) + HEADER + MIN_ALIGNED) && !Live(h, q)
  {
    hide Extent, Search, FirstFree, Apart, Swaps, Chain, Aligned, FreeAt, Round, Take;
    var i := Found(h, n);
    if i < |h.blocks| {
      var s := Wanted(n);
      RoundIs(n);
      SearchFits(h.blocks, IndexOf(h.blocks, h.lfree), s, h.msa - s);
      TakeExact(h, i, s);
      if j :| 0 <= j < |h.blocks| && h.blocks[j].used && h.blocks[j].at == h.blocks[i].at {
        ChainDistinct(h.blocks, End(h), i, j);
        assert false;
      }
    }
  }

  lemma {:induction false} MoveExact(h: Heap, h1: Heap, p: Ptr, q: Ptr, least: nat, below: nat)
    requires Wf(h) && Wf(h1) && Live(h, p) && Live(h1, p) && q != p && Swaps(h, h1, Null, q, least, below)
    ensures Swaps(h, Free(h1, p), p, q, least, below) && !Live(Free(h1, p), p)
  {
    hide Extent, Chain, Apart, Aligned, FreeAt, Low, Free, Wf;
    FreeSound(h1, p);
    LiveBlock(h1, p);
    LiveOnce(h1, p);
    var (h', g) := (Free(h1, p), h1.blocks[BlockOf(h1, p)]);
    var b: Block :| b.used && q == At(b.at + HEADER) && least <= b.size < below
                    && forall c: Block | c.used :: c in h1.blocks <==>
                       (c in h.blocks && Null != At(c.at + HEADER)) || c == b;
    forall c: Block | c.used ensures c in h'.blocks <==> (c in h.blocks && p != At(c.at + HEADER)) || c == b {
      if c in h.blocks && p == At(c.at + HEADER) { assert c in h1.blocks && c == g; }
      if c in h.blocks && p != At(c.at + HEADER) { assert c in h1.blocks && c != g; }
    }
  }

  /** A live pointer belongs to one block. */
  lemma {:induction false} LiveOnce(h: Heap, p: Ptr)
    requires Wf(h) && Live(h, p)
    ensures BlockOf(h, p) < |h.blocks| && h.blocks[BlockOf(h, p)].used && p == At(h.blocks[BlockOf(h, p)].at + HEADER)
    ensures forall c: Block | c in h.blocks && c.used && p == At(c.at + HEADER) :: c == h.blocks[BlockOf(h, p)]
  {
    hide Extent, Apart, FreeAt;
    LiveBlock(h, p);
    forall c: Block | c in h.blocks && c.used && p == At(c.at + HEADER) ensures c == h.blocks[BlockOf(h, p)] {
      var i :| 0 <= i < |h.blocks| && h.blocks[i] == c;
      ChainDistinct(h.blocks, End(h), i, BlockOf(h, p));
    }
  }

  /** Which way rt_realloc goes for a pointer into the heap.  It comes back itself exactly when the rounded
      size is the block's or leaves room for another block, with that size.  Otherwise it is what rt_malloc
      gives, and the old block is out of use, or nothing has changed. */
  lemma {:induction false} ReallocExact(h: Heap, p: Ptr, n: nat)
    requires Wf(h) && n < WORD && Live(h, p)
    ensures BlockOf(h, p) < |h.blocks|
    ensures var (b, r) := (h.blocks[BlockOf(h, p)], Round(n));
            var (stays, (h', q)) := (b.size == r || r + HEADER + MIN_SIZE < b.size, Realloc(h, p, n));
            && (r > h.msa ==> q == Null && h' == h)
            && (q == p <==> r <= h.msa && stays)
            && (q == p ==> Swaps(h, h', p, p, r, r + 1))
            && (r <= h.msa && !stays ==>
                && (q.Null? <==> Malloc(h, r).1.Null?) && (q.Null? ==> h' == h)
                && (q.At? ==>
                   !Live(h, q) && !Live(h', p) && Swaps(h, h', p, q, Wanted(r), Wanted(r) + HEADER + MIN_ALIGNED)))
  {
    hide Extent, Chain, Apart, Aligned, FreeAt, Round, Malloc, Release, Shrink, Low, Swaps, Free, Wf;
    LiveOnce(h, p);
    LiveBlock(h, p);
    RoundIs(n);
    var (i, r) := (BlockOf(h, p), Round(n));
    var b := h.blocks[i];
    LiveInside(h, p);
    if r <= h.msa {
      if b.size == r {
        SwapsSame(h, p, r);
      } else if r + HEADER + MIN_SIZE < b.size {
        ShrinkSound(h, i, r);
        SwapsShrunk(h, Shrink(h, i, r), p, r);
      } else {
        MallocSound(h, r);
        MallocExact(h, r);
        MallocLive(h, r, p);
        if Malloc(h, r).1.At? {
          MoveExact(h, Malloc(h, r).0, p, Malloc(h, r).1, Wanted(r), Wanted(r) + HEADER + MIN_ALIGNED);
        }
      }
    }
  }

  /** rt_realloc of NULL is rt_malloc, for every size that can be rounded up. */
  lemma {:induction false} ReallocNull(h: Heap, n: nat)
    requires Wf(h) && n < WORD
    ensures Realloc(h, Null, n) == if n <= WORD - ALIGN then Malloc(h, n) else (h, Null)
  {
    hide Wf, Take, Search;
    RoundIs(n);
    assert Round(n) == 0 <==> n == 0 || n > WORD - ALIGN;
  }

  lemma {:induction false} LiveInside(h: Heap, p: Ptr)
    requires Wf(h) && Live(h, p)
    ensures p.At? && p.off < End(h)
  {
    hide Extent, Apart, FreeAt;
    LiveBlock(h, p);
    ChainMono(h.blocks, End(h), BlockOf(h, p), |h.blocks|);
  }

  lemma {:induction false} SwapsSame(h: Heap, p: Ptr, r: nat)
    requires Wf(h) && Live(h, p) && BlockOf(h, p) < |h.blocks| && h.blocks[BlockOf(h, p)].size == r
    ensures Swaps(h, h, p, p, r, r + 1)
  {
    hide Wf, Live;
    LiveOnce(h, p);
    var b := h.blocks[BlockOf(h, p)];
    assert forall c: Block | c.used :: c in h.blocks <==> (c in h.blocks && p != At(c.at + HEADER)) || c == b;
  }

  lemma {:induction false} SwapsShrunk(h: Heap, h': Heap, p: Ptr, r: nat)
    requires Wf(h) && Live(h, p) && BlockOf(h, p) < |h.blocks|
    requires var b := h.blocks[BlockOf(h, p)];
             forall c: Block | c.used :: c in h'.blocks <==> (c in h.blocks && c != b) || c == b.(size := r)
    ensures Swaps(h, h', p, p, r, r + 1)
  {
    hide Wf, Live;
    LiveOnce(h, p);
    var b := h.blocks[BlockOf(h, p)];
    var b' := b.(size := r);
    assert forall c: Block | c.used :: c in h'.blocks <==> (c in h.blocks && p != At(c.at + HEADER)) || c == b';
  }

  // ---- whole runs ----

  datatype Op = DoMalloc(n: nat) | DoFree(p: Ptr) | DoRealloc(p: Ptr, n: nat)

  /** Callers pass 32-bit sizes, and null or pointers in use. */
  ghost predicate Legal(h: Heap, op: Op) {
    match op
    case DoMalloc(n) => n < WORD
    case DoFree(p) => Given(h, p)
    case DoRealloc(p, n) => n < WORD && Given(h, p)
  }

  ghost function Step(h: Heap, op: Op): Heap {
    if !(Wf(h) && Legal(h, op)) then h
    else
    match op
    case DoMalloc(n) => Malloc(h, n).0
    case DoFree(p) => Free(h, p)
    case DoRealloc(p, n) => Realloc(h, p, n).0
  }

  /** Whether rt_realloc asks for a new block. */
  ghost predicate Moving(h: Heap, p: Ptr, n: nat) {
    var (r, i) := (Round(n), BlockOf(h, p));
    r <= h.msa && (p.Null? || (p.off < End(h) && i < |h.blocks| && h.blocks[i].size != r && !Splits(h.blocks[i], r)))
  }

  /** The most bytes in use at any moment of one operation: a moving rt_realloc holds both blocks. */
  ghost function Peak(h: Heap, op: Op): nat {
    if op.DoRealloc? && Moving(h, op.p, op.n) then Max(h.used, Malloc(h, Round(op.n)).0.used)
    else Max(h.used, Step(h, op).used)
  }

  ghost function RunPeak(h: Heap, ops: seq<Op>): nat
    decreases |ops|
  {
    if ops == [] then h.used else Max(Peak(h, ops[0]), RunPeak(Step(h, ops[0]), ops[1..]))
  }

  /** `h'` is reached from `h` by the operations, each legal when it is made. */
  ghost predicate Reaches(h: Heap, ops: seq<Op>, h': Heap)
    decreases |ops|
  {
    if ops == [] then h' == h else Legal(h, ops[0]) && Reaches(Step(h, ops[0]), ops[1..], h')
  }

  lemma {:induction false} StepSound(h: Heap, op: Op)
    requires Wf(h) && Legal(h, op)
    ensures Wf(Step(h, op)) && Step(h, op).msa == h.msa
    ensures Low(h.blocks, h.lfree) && !op.DoRealloc? ==> Low(Step(h, op).blocks, Step(h, op).lfree)
  {
    hide Wf, Low, Malloc, Realloc, Holds, Undisturbed, Only, OthersLive, Free;
    match op
    case DoMalloc(n) => MallocSound(h, n);
    case DoFree(p) => FreeStep(h, p);
    case DoRealloc(p, n) => ReallocSound(h, p, n);
  }

  lemma {:induction false} UsedMax(h: Heap)
    requires Wf(h)
    ensures h.used <= h.max
  {
  }

  lemma {:induction false} MallocPeak(h: Heap, n: nat)
    requires Wf(h) && n < WORD
    ensures var h' := Malloc(h, n).0; h'.max == Max(h.max, Max(h.used, h'.used))
  {
    hide Wf, Malloc, Low, OthersLive;
    MallocSound(h, n);
    UsedMax(h);
  }

  lemma {:induction false} ReallocPeak(h: Heap, p: Ptr, n: nat)
    requires Wf(h) && n < WORD && Given(h, p)
    ensures Realloc(h, p, n).0.max == Max(h.max, Peak(h, DoRealloc(p, n)))
  {
    hide Wf, Malloc, Low, Holds, Undisturbed, Splits, Shrink, Free, Live, BlockOf;
    UsedMax(h);
    var r := Round(n);
    RoundIs(n);
    if p.At? && p.off < End(h) { LiveBlock(h, p); }
    if r <= h.msa {
      if Moving(h, p, n) {
        MallocPeak(h, r);
        if p.At? && Malloc(h, r).1.At? {
          MallocSound(h, r);
          MallocLive(h, r, p);
          FreeSound(Malloc(h, r).0, p);
        }
      } else if p.At? && p.off < End(h) && h.blocks[BlockOf(h, p)].size != r {
        ShrinkSound(h, BlockOf(h, p), r);
        UsedMax(Shrink(h, BlockOf(h, p), r));
      }
    }
  }

  lemma {:induction false} StepPeak(h: Heap, op: Op)
    requires Wf(h) && Legal(h, op)
    ensures Step(h, op).max == Max(h.max, Peak(h, op))
  {
    hide Wf, Low, Malloc, Realloc, Moving;
    match op
    case DoMalloc(n) => MallocPeak(h, n);
    case DoFree(p) =>
      FreeStep(h, p);
      UsedMax(h);
      UsedMax(Free(h, p));
    case DoRealloc(p, n) => ReallocPeak(h, p, n);
  }

  lemma {:induction false} FreeStep(h: Heap, p: Ptr)
    requires Wf(h) && Given(h, p)
    ensures var h' := Free(h, p);
            Wf(h') && h'.msa == h.msa && h'.max == h.max && (Low(h.blocks, h.lfree) ==> Low(h'.blocks, h'.lfree))
  {
    hide Wf, Low, Release;
    if p.At? && p.off < End(h) { FreeSound(h, p); }
  }

  /** The chain invariant over every run, with max_mem the peak of the bytes in use; and over runs
      without rt_realloc, `lfree` is the lowest free block or heap_end. */
  lemma {:induction false} RunSound(h: Heap, ops: seq<Op>, h': Heap)
    requires Wf(h) && Reaches(h, ops, h')
    ensures Wf(h') && h'.msa == h.msa && h'.max == Max(h.max, RunPeak(h, ops))
    ensures Low(h.blocks, h.lfree) && (forall i | 0 <= i < |ops| :: !ops[i].DoRealloc?) ==> Low(h'.blocks, h'.lfree)
    decreases |ops|
  {
    hide Wf, Low, Legal, Step, Peak;
    if ops == [] {
      UsedMax(h);
    } else {
      StepSound(h, ops[0]);
      StepPeak(h, ops[0]);
      RunSound(Step(h, ops[0]), ops[1..], h');
    }
  }

  /** The heap rt_system_heap_init sets up. */
  function Init(msa: nat): Heap { Heap(msa, [Block(0, msa, false)], 0, 0, 0) }

  lemma {:induction false} InitSound(msa: nat)
    requires MIN_ALIGNED <= msa < WORD - HEADER && Aligned(msa)
    ensures Wf(Init(msa)) && Low(Init(msa).blocks, Init(msa).lfree)
  {
    var h := Init(msa);
    assert h.blocks[0].at == 0 && !h.blocks[0].used;
    assert Linked(h.blocks, End(h), 0);
    ExtentTwo(h.blocks[0], h.blocks[0]);
    assert FreeAt(h.blocks, 0);
  }

  /** The heap of 144 bytes, after a request for 64, and full after another for 56. */
  function Half(): Heap { Heap(144, [Block(0, 64, true), Block(80, 64, false)], 80, 80, 80) }

  function Full(): Heap { Heap(144, [Block(0, 64, true), Block(80, 64, true)], 160, 160, 160) }

  lemma {:induction false} FillsHalf()
    ensures Malloc(Init(144), 64).0 == Half() && Malloc(Half(), 56).0 == Full()
  {
    var (h, h1) := (Init(144), Half());
    assert Round(64) == 64 && Round(56) == 56;
    assert IndexOf(h.blocks, 0) == 0 && Search(h.blocks, 0, 64, 80) == 0;
    assert Take(h, 0, 64).blocks == h1.blocks;
    assert FirstFree(h1.blocks, 1, 160) == 80;
    assert h1.blocks[1..][0].at == 80;
    assert IndexOf(h1.blocks[1..], 80) == 0;
    assert IndexOf(h1.blocks, 80) == 1 && Search(h1.blocks, 1, 56, 88) == 1;
    assert Mark(h1.blocks, 1, true) == Full().blocks;
    assert FirstFree(Full().blocks, 2, 160) == 160;
  }

  lemma {:induction false} FullOk()
    ensures Wf(Full()) && Low(Full().blocks, 160) && Live(Full(), At(16)) && BlockOf(Full(), At(16)) == 0
  {
    var (bs, h) := (Full().blocks, Full());
    assert Linked(bs, 160, 0) && Linked(bs, 160, 1);
    assert Pair(bs, 1);
    ExtentTwo(bs[0], bs[1]);
    ExtentTwo(bs[1], bs[1]);
    assert bs[0].used && bs[0].at + HEADER == 16;
  }

  /** In-place shrinking can leave `lfree` above a free block.  Two requests fill a fresh heap and leave
      `lfree` at heap_end; it stays there when the first block is shrunk. */
  lemma {:induction false} ShrinkExample()
    ensures Wf(Init(144)) && Reaches(Init(144), [DoMalloc(64), DoMalloc(56)], Full())
    ensures Low(Full().blocks, Full().lfree) && Legal(Full(), DoRealloc(At(16), 16))
    ensures var h := Step(Full(), DoRealloc(At(16), 16)); !Low(h.blocks, h.lfree)
  {
    hide Wf, Low, Malloc, Shrink, Splits;
    InitSound(144);
    FillsHalf();
    StepSound(Init(144), DoMalloc(64));
    FullOk();
    var ops := [DoMalloc(64), DoMalloc(56)];
    assert ops[1..] == [DoMalloc(56)] && ops[1..][1..] == [];
    assert Step(Init(144), DoMalloc(64)) == Half() && Step(Half(), DoMalloc(56)) == Full();
    assert Reaches(Full(), [], Full());
    assert Reaches(Half(), [DoMalloc(56)], Full());
    ShrinksFull();
  }

  lemma {:induction false} ShrinksFull()
    ensures Wf(Full()) && Given(Full(), At(16)) && var h := Realloc(Full(), At(16), 16).0; !Low(h.blocks, h.lfree)
  {
    hide Wf, Low, Shrink;
    FullOk();
    assert Round(16) == 16;
    ShrinkLow(Full(), 0, 16);
  }
}
