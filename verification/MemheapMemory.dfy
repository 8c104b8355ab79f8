/** The link between a heap and the words of its pool.

    `Represents` says that the words hold the two rings of a heap.  Each operation on the words takes a
    memory that represents a heap to one that represents the heap after the corresponding operation, and
    writes no word of a block that stays live.  The proofs follow the code: an operation is a few stages
    (cut, join, take off or put on the free ring, mark), each of which changes one thing. */
module MemheapMemory {
  import opened Seqs
  import opened MemheapSpec
  import opened MemheapProps
  import opened MemheapRings

  function Addrs(b: seq<Block>): (s: seq<int>)
    ensures |s| == |b| && forall i | 0 <= i < |b| :: s[i] == b[i].addr
  {
    if b == [] then [] else [b[0].addr] + Addrs(b[1..])
  }

  function Marks(b: seq<Block>): (s: seq<bool>)
    ensures |s| == |b| && forall i | 0 <= i < |b| :: s[i] == b[i].used
  {
    if b == [] then [] else [b[0].used] + Marks(b[1..])
  }

  /** The address of the block whose header covers word `x`. */
  ghost function Cover(b: seq<Block>, x: int): int {
    if b == [] then x + 1 else if b[0].addr <= x < b[0].addr + HEADER then b[0].addr else Cover(b[1..], x)
  }

  ghost function Owner(b: seq<Block>, head: int): int -> int {
    x => if head <= x < head + HEADER then head else Cover(b, x)
  }

  ghost predicate Outside(head: int, lo: int, hi: int) { head + HEADER <= lo || hi <= head }

  ghost predicate Represents(m: Memory, h: Heap, head: int) {
    && Wf(h) && Outside(head, h.start, h.start + h.pool)
    && Shape(m, head, Addrs(h.blocks), Marks(h.blocks), h.free)
  }

  /** Words of a block that is live before and after keep their value, as far as both sizes reach. */
  ghost predicate Kept(m: Memory, m': Memory, h: Heap, h': Heap) {
    forall q, x | Live(h, q) && Live(h', q) && q <= x < q + SizeOf(h, q) && x < q + SizeOf(h', q) ::
      Word(m', x) == Word(m, x)
  }

  // ---- owners ----

  lemma {:induction false} CoverAt(b: seq<Block>, lo: int, hi: int, i: nat, x: int)
    requires Tiles(b, lo, hi) && i < |b| && b[i].addr <= x < b[i].End()
    ensures x < b[i].addr + HEADER ==> Cover(b, x) == b[i].addr
    ensures b[i].addr + HEADER <= x ==> Cover(b, x) == x + 1
    decreases |b|
  {
    TilesApart(b, lo, hi);
    if i > 0 {
      CoverAt(b[1..], b[0].End(), hi, i - 1, x);
    } else {
      CoverBelow(b[1..], b[0].End(), hi, x);
    }
  }

  lemma {:induction false} CoverBelow(b: seq<Block>, lo: int, hi: int, x: int)
    requires Tiles(b, lo, hi) && x < lo
    ensures Cover(b, x) == x + 1
    decreases |b|
  {
    if b != [] { CoverBelow(b[1..], b[0].End(), hi, x); }
  }

  lemma {:induction false} OwnerOwns(b: seq<Block>, lo: int, hi: int, head: int, i: nat)
    requires Tiles(b, lo, hi) && Outside(head, lo, hi) && i < |b|
    ensures Owns(Owner(b, head), head) && Owns(Owner(b, head), b[i].addr) && b[i].addr != head
  {
    TilesApart(b, lo, hi);
    CoverAt(b, lo, hi, i, b[i].addr);
    CoverAt(b, lo, hi, i, b[i].addr + 1);
    CoverAt(b, lo, hi, i, b[i].addr + 2);
    CoverAt(b, lo, hi, i, b[i].addr + 3);
    CoverAt(b, lo, hi, i, b[i].addr + 4);
    CoverAt(b, lo, hi, i, b[i].addr + 5);
  }

  /** A list of distinct block addresses. */
  lemma {:induction false} ApartList(b: seq<Block>, lo: int, hi: int, head: int, s: seq<int>)
    requires Tiles(b, lo, hi) && Outside(head, lo, hi) && b != []
    requires forall i | 0 <= i < |s| :: s[i] in Addrs(b)
    requires forall i, j | 0 <= i < j < |s| :: s[i] != s[j]
    ensures Apart(Owner(b, head), [head] + s)
  {
    OwnerOwns(b, lo, hi, head, 0);
    var t := [head] + s;
    forall i | 0 <= i < |t| ensures Owns(Owner(b, head), t[i]) && (i > 0 ==> t[i] != head) {
      if i > 0 {
        var k :| 0 <= k < |b| && b[k].addr == s[i - 1];
        OwnerOwns(b, lo, hi, head, k);
      }
    }
  }

  lemma {:induction false} ApartAddrs(b: seq<Block>, lo: int, hi: int, head: int)
    requires Tiles(b, lo, hi) && Outside(head, lo, hi) && b != []
    ensures Apart(Owner(b, head), [head] + Addrs(b))
  {
    TilesApart(b, lo, hi);
    ApartList(b, lo, hi, head, Addrs(b));
  }

  /** The free ring lists addresses of blocks, each once. */
  lemma {:induction false} FreeIsList(h: Heap)
    requires Wf(h)
    ensures forall p | 0 <= p < |h.free| :: h.free[p] in Addrs(h.blocks)
    ensures forall p, r | 0 <= p < r < |h.free| :: h.free[p] != h.free[r]
  {
    forall p | 0 <= p < |h.free| ensures h.free[p] in Addrs(h.blocks) {
      FreeIndex(h, p);
      assert Addrs(h.blocks)[IndexOf(h.blocks, h.free[p])] == h.free[p];
    }
    forall p, r | 0 <= p < r < |h.free| ensures h.free[p] != h.free[r] {
      UnusedIff(h.blocks, h.start, h.start + h.pool, h.free[p]);
      OccursTwice(h.free, p, r);
    }
  }

  lemma {:induction false} OccursTwice(s: seq<int>, p: nat, r: nat)
    requires p < r < |s|
    ensures s[p] == s[r] ==> Occurs(s, s[p]) >= 2
  {
    if p > 0 {
      OccursTwice(s[1..], p - 1, r - 1);
    } else {
      OccursIff(s[1..], s[p]);
      assert s[r] == s[1..][r - 1];
    }
  }

  lemma {:induction false} WithoutIsRemoved(s: seq<int>, p: nat)
    requires p < |s| && forall i | 0 <= i < p :: s[i] != s[p]
    ensures Without(s, s[p]) == Removed(s, p)
  {
    if p > 0 {
      WithoutIsRemoved(s[1..], p - 1);
      assert s[1..][p - 1] == s[p];
      assert Removed(s, p) == [s[0]] + Removed(s[1..], p - 1);
    } else {
      assert Removed(s, p) == s[1..];
    }
  }

  lemma {:induction false} CoverIn(b: seq<Block>, x: int)
    requires Cover(b, x) <= x
    ensures Cover(b, x) in Addrs(b) && x < Cover(b, x) + HEADER
  {
    if b[0].addr <= x < b[0].addr + HEADER {
      assert Addrs(b)[0] == b[0].addr;
    } else {
      CoverIn(b[1..], x);
      assert Addrs(b) == [b[0].addr] + Addrs(b[1..]);
    }
  }

  /** No header word lies in the data of a live block. */
  lemma {:induction false} DataClear(h: Heap, q: int, x: int, a: int)
    requires Wf(h) && Live(h, q) && q <= x < q + SizeOf(h, q) && a in Addrs(h.blocks)
    ensures !(a <= x < a + HEADER) && h.start <= x < h.start + h.pool
  {
    hide Tiles, Coalesced, Occurs, Unused, FreeWords;
    var i :| 0 <= i < |h.blocks| && h.blocks[i].addr == a;
    var k := IndexOf(h.blocks, q - HEADER);
    assert h.blocks[k].addr == q - HEADER;
    TwoBlocks(h.blocks, h.start, h.start + h.pool, i, k);
  }

  lemma {:induction false} TwoBlocks(b: seq<Block>, lo: int, hi: int, i: nat, j: nat)
    requires Tiles(b, lo, hi) && i < |b| && j < |b|
    ensures i == j || b[i].End() <= b[j].addr || b[j].End() <= b[i].addr
    ensures lo <= b[j].addr && b[j].End() <= hi && 0 <= b[i].size && 0 <= b[j].size
  {
    hide Tiles;
    TilesApart(b, lo, hi);
  }

  /** Writing headers of items of `h` and `h'` only keeps the data of the blocks live in both. */
  lemma {:induction false} TouchedKept(m: Memory, m': Memory, o: seq<Block>, head: int, h: Heap, h': Heap)
    requires Wf(h) && Wf(h') && Outside(head, h.start, h.start + h.pool) && Touched(m, m', Owner(o, head))
    requires forall a | a in Addrs(o) :: a in Addrs(h.blocks) || a in Addrs(h'.blocks)
    ensures Kept(m, m', h, h')
  {
    forall q, x | Live(h, q) && Live(h', q) && q <= x < q + SizeOf(h, q) && x < q + SizeOf(h', q)
      ensures Word(m', x) == Word(m, x)
    {
      DataClear(h, q, x, h.blocks[0].addr);
      if Word(m', x) != Word(m, x) {
        var a := Owner(o, head)(x);
        CoverIn(o, x);
        if a in Addrs(h.blocks) { DataClear(h, q, x, a); } else { DataClear(h', q, x, a); }
      }
    }
  }

  // ---- steps on the blocks of a pool ----

  /** The pool holds blocks `b` (neighbours may both be free here) and the free ring `free`. */
  ghost predicate Stage(m: Memory, head: int, lo: int, hi: int, b: seq<Block>, free: seq<int>) {
    b != [] && Tiles(b, lo, hi) && Outside(head, lo, hi) && Shape(m, head, Addrs(b), Marks(b), free)
  }

  ghost predicate Listed(b: seq<Block>, s: seq<int>) {
    && (forall i | 0 <= i < |s| :: s[i] in Addrs(b))
    && (forall i, j | 0 <= i < j < |s| :: s[i] != s[j])
  }

  /** Block `k` cut after `n` words; the second part is marked free. */
  function CutRun(x: Block, n: int): seq<Block> {
    [Block(x.addr, n, x.used), Block(x.addr + HEADER + n, x.size - n - HEADER, false)]
  }

  lemma {:induction false} JoinAddrs(a: seq<Block>, b: seq<Block>)
    ensures Addrs(a + b) == Addrs(a) + Addrs(b) && Marks(a + b) == Marks(a) + Marks(b)
  {
  }

  lemma {:induction false} SliceAddrs(b: seq<Block>, l: nat)
    requires l <= |b|
    ensures Addrs(b[..l]) == Addrs(b)[..l] && Marks(b[..l]) == Marks(b)[..l]
    ensures Addrs(b[l..]) == Addrs(b)[l..] && Marks(b[l..]) == Marks(b)[l..]
  {
  }

  lemma {:induction false} SpliceAddrs(b: seq<Block>, l: nat, r: nat, mid: seq<Block>)
    requires l <= r <= |b|
    ensures Addrs(Splice(b, l, r, mid)) == Addrs(b)[..l] + Addrs(mid) + Addrs(b)[r..]
    ensures Marks(Splice(b, l, r, mid)) == Marks(b)[..l] + Marks(mid) + Marks(b)[r..]
  {
    JoinAddrs(b[..l], mid);
    JoinAddrs(b[..l] + mid, b[r..]);
    SliceAddrs(b, l);
    SliceAddrs(b, r);
  }

  lemma {:induction false} CutTiles(b: seq<Block>, lo: int, hi: int, k: nat, n: int)
    requires Tiles(b, lo, hi) && k < |b| && 0 <= n && n + HEADER <= b[k].size
    ensures Tiles(Splice(b, k, k + 1, CutRun(b[k], n)), lo, hi)
  {
    var r := CutRun(b[k], n);
    assert r[1..] == [r[1]] && [r[1]][1..] == [];
    SpliceTiles(b, k, k + 1, r, lo, hi);
  }

  lemma {:induction false} AddrsOf2(x: Block, y: Block)
    ensures Addrs([x, y]) == [x.addr, y.addr] && Marks([x, y]) == [x.used, y.used]
  {
  }

  lemma {:induction false} Regroup<T>(s: seq<T>, k: nat, y: T)
    requires k < |s|
    ensures s[..k] + [s[k], y] + s[k + 1..] == s[..k + 1] + [y] + s[k + 1..]
  {
  }

  lemma {:induction false} CutLists(b: seq<Block>, k: nat, n: int)
    requires k < |b|
    ensures var b' := Splice(b, k, k + 1, CutRun(b[k], n));
            && Addrs(b') == Inserted(Addrs(b), k, b[k].addr + HEADER + n)
            && Marks(b') == Marks(b)[..k + 1] + [false] + Marks(b)[k + 1..]
  {
    hide Addrs, Marks, Splice;
    SpliceAddrs(b, k, k + 1, CutRun(b[k], n));
    AddrsOf2(Block(b[k].addr, n, b[k].used), Block(b[k].addr + HEADER + n, b[k].size - n - HEADER, false));
    Regroup(Addrs(b), k, b[k].addr + HEADER + n);
    Regroup(Marks(b), k, false);
  }

  /** A list of addresses of `b` is a list of addresses of any `b'` that has them all. */
  lemma {:induction false} ListedIn(b: seq<Block>, b': seq<Block>, s: seq<int>)
    requires Listed(b, s) && forall x | x in Addrs(b) :: x in Addrs(b')
    ensures Listed(b', s)
  {
  }

  lemma {:induction false} InsertedHas(s: seq<int>, k: nat, n: int)
    requires k < |s|
    ensures n in Inserted(s, k, n) && forall x | x in s :: x in Inserted(s, k, n)
  {
    var t := Inserted(s, k, n);
    assert t[k + 1] == n;
    forall x | x in s ensures x in t {
      var i :| 0 <= i < |s| && s[i] == x;
      assert t[if i <= k then i else i + 1] == x;
    }
  }

  lemma {:induction false} AddrsListed(b: seq<Block>, lo: int, hi: int)
    requires Tiles(b, lo, hi)
    ensures Listed(b, Addrs(b))
  {
    TilesApart(b, lo, hi);
  }

  lemma {:induction false} CutIsNew(b: seq<Block>, lo: int, hi: int, k: nat, n: int)
    requires Tiles(b, lo, hi) && k < |b| && 0 <= n && n + HEADER <= b[k].size
    ensures b[k].addr + HEADER + n !in Addrs(b)
  {
    TilesApart(b, lo, hi);
  }

  lemma {:induction false} CutStage(m: Memory, head: int, lo: int, hi: int, b: seq<Block>, free: seq<int>, k: nat,
          n: int)
    requires Stage(m, head, lo, hi, b, free) && Listed(b, free) && k < |b| && 0 <= n && n + HEADER <= b[k].size
    ensures var (nw, b') := (b[k].addr + HEADER + n, Splice(b, k, k + 1, CutRun(b[k], n)));
            var m' := Linked(Stamped(m, nw, head), b[k].addr, nw, NEXT);
            && Stage(m', head, lo, hi, b', free) && Listed(b', free) && nw !in free && nw in Addrs(b')
            && Touched(m, m', Owner(b', head))
  {
    var nw, b' := b[k].addr + HEADER + n, Splice(b, k, k + 1, CutRun(b[k], n));
    CutTiles(b, lo, hi, k, n);
    CutLists(b, k, n);
    CutIsNew(b, lo, hi, k, n);
    InsertedHas(Addrs(b), k, nw);
    ListedIn(b, b', free);
    ApartList(b', lo, hi, head, free);
    AddrsListed(b, lo, hi);
    ListedIn(b, b', Addrs(b));
    ApartList(b', lo, hi, head, Addrs(b));
    assert b'[k + 1].addr == nw;
    OwnerOwns(b', lo, hi, head, k + 1);
    InsertPhys(m, Owner(b', head), head, Addrs(b), Marks(b), free, k, nw);
  }

  /** Blocks `k` and `k + 1` as one. */
  function Joined(b: seq<Block>, k: nat): seq<Block>
    requires k + 1 < |b|
  {
    Splice(b, k, k + 2, [Block(b[k].addr, b[k].size + HEADER + b[k + 1].size, b[k].used)])
  }

  lemma {:induction false} RegroupOut<T>(s: seq<T>, k: nat)
    requires k + 1 < |s|
    ensures s[..k] + [s[k]] + s[k + 2..] == s[..k + 1] + s[k + 2..]
  {
  }

  lemma {:induction false} JoinLists(b: seq<Block>, k: nat)
    requires k + 1 < |b|
    ensures Addrs(Joined(b, k)) == Removed(Addrs(b), k + 1)
    ensures Marks(Joined(b, k)) == Marks(b)[..k + 1] + Marks(b)[k + 2..]
  {
    var mid := [Block(b[k].addr, b[k].size + HEADER + b[k + 1].size, b[k].used)];
    SpliceAddrs(b, k, k + 2, mid);
    assert Addrs(mid) == [Addrs(b)[k]] && Marks(mid) == [Marks(b)[k]];
    RegroupOut(Addrs(b), k);
    RegroupOut(Marks(b), k);
  }

  lemma {:induction false} JoinTiles(b: seq<Block>, lo: int, hi: int, k: nat)
    requires Tiles(b, lo, hi) && k + 1 < |b|
    ensures Tiles(Joined(b, k), lo, hi)
  {
    TilesApart(b, lo, hi);
    var x := Block(b[k].addr, b[k].size + HEADER + b[k + 1].size, b[k].used);
    assert [x][1..] == [];
    SpliceTiles(b, k, k + 2, [x], lo, hi);
  }

  lemma {:induction false} ListedRemoved(b: seq<Block>, b': seq<Block>, s: seq<int>, k: nat)
    requires Listed(b, s) && Listed(b, Addrs(b)) && k < |b| && Addrs(b') == Removed(Addrs(b), k)
    ensures b[k].addr !in s ==> Listed(b', s)
    ensures (forall a | a in Addrs(b') :: a in Addrs(b)) && Listed(b, Addrs(b'))
  {
    hide Removed, Addrs;
    RemovedIn(Addrs(b), k);
    AddrAt(b, k);
    forall i | 0 <= i < |Addrs(b')| ensures Addrs(b')[i] in Addrs(b) { }
  }

  lemma {:induction false} AddrAt(b: seq<Block>, k: nat)
    requires k < |b|
    ensures |Addrs(b)| == |b| && Addrs(b)[k] == b[k].addr
  {
  }

  /** Taking out one of several different entries. */
  lemma {:induction false} RemovedIn(t: seq<int>, k: nat)
    requires k < |t| && forall i, j | 0 <= i < j < |t| :: t[i] != t[j]
    ensures forall i, j | 0 <= i < j < |Removed(t, k)| :: Removed(t, k)[i] != Removed(t, k)[j]
    ensures forall x :: x in Removed(t, k) <==> x in t && x != t[k]
  {
    var r := Removed(t, k);
    forall x | x in t && x != t[k] ensures x in r {
      var i :| 0 <= i < |t| && t[i] == x;
      assert r[if i < k then i else i - 1] == x;
    }
  }

  lemma {:induction false} JoinStage(m: Memory, head: int, lo: int, hi: int, b: seq<Block>, free: seq<int>, k: nat)
    requires Stage(m, head, lo, hi, b, free) && Listed(b, free) && k + 1 < |b|
    ensures var m' := Unlinked(m, b[k + 1].addr, NEXT);
            && Stage(m', head, lo, hi, Joined(b, k), free) && Touched(m, m', Owner(b, head))
            && (forall a | a in Addrs(Joined(b, k)) :: a in Addrs(b)) && Listed(b, Addrs(Joined(b, k)))
            && (b[k + 1].addr !in free ==> Listed(Joined(b, k), free))
  {
    JoinTiles(b, lo, hi, k);
    JoinLists(b, k);
    AddrsListed(b, lo, hi);
    ListedRemoved(b, Joined(b, k), free, k + 1);
    ApartAddrs(b, lo, hi, head);
    ApartList(b, lo, hi, head, free);
    RemovePhys(m, Owner(b, head), head, Addrs(b), Marks(b), free, k + 1);
  }

  /** The pools of a step that leaves the blocks alone: `o` has every item in play. */
  ghost predicate InPlay(o: seq<Block>, lo: int, hi: int, b: seq<Block>, free: seq<int>) {
    o != [] && Tiles(o, lo, hi) && Listed(o, Addrs(b)) && Listed(o, free)
  }

  lemma {:induction false} InPlaySpread(o: seq<Block>, head: int, lo: int, hi: int, b: seq<Block>, free: seq<int>)
    requires InPlay(o, lo, hi, b, free) && Outside(head, lo, hi)
    ensures Spread(Owner(o, head), head, Addrs(b), free)
  {
    ApartList(o, lo, hi, head, free);
    ApartList(o, lo, hi, head, Addrs(b));
  }

  lemma {:induction false} ListedOwns(o: seq<Block>, lo: int, hi: int, head: int, a: int)
    requires Tiles(o, lo, hi) && Outside(head, lo, hi) && a in Addrs(o)
    ensures Owns(Owner(o, head), a) && a != head
  {
    var i :| 0 <= i < |o| && o[i].addr == a;
    OwnerOwns(o, lo, hi, head, i);
  }

  lemma {:induction false} UnfreeStage(m: Memory, head: int, lo: int, hi: int, b: seq<Block>, free: seq<int>, p: nat,
          o: seq<Block>)
    requires Stage(m, head, lo, hi, b, free) && InPlay(o, lo, hi, b, free) && p < |free|
    ensures var m' := Unlinked(m, free[p], NEXT_FREE);
            && Stage(m', head, lo, hi, b, Removed(free, p)) && Listed(o, Removed(free, p))
            && free[p] !in Removed(free, p) && Touched(m, m', Owner(o, head))
  {
    InPlaySpread(o, head, lo, hi, b, free);
    RemoveFree(m, Owner(o, head), head, Addrs(b), Marks(b), free, p);
    var t := Removed(free, p);
    forall i | 0 <= i < |t| ensures t[i] == free[if i < p then i else i + 1] {}
  }

  lemma {:induction false} RefreeStage(m: Memory, head: int, lo: int, hi: int, b: seq<Block>, free: seq<int>, a: int,
          o: seq<Block>)
    requires Stage(m, head, lo, hi, b, free) && InPlay(o, lo, hi, b, free) && a in Addrs(o) && a !in free
    ensures var m' := Linked(m, head, a, NEXT_FREE);
            Stage(m', head, lo, hi, b, [a] + free) && Touched(m, m', Owner(o, head))
  {
    InPlaySpread(o, head, lo, hi, b, free);
    ListedOwns(o, lo, hi, head, a);
    InsertFree(m, Owner(o, head), head, Addrs(b), Marks(b), free, a);
  }

  lemma {:induction false} ClearStage(m: Memory, head: int, lo: int, hi: int, b: seq<Block>, free: seq<int>, a: int,
          o: seq<Block>)
    requires Stage(m, head, lo, hi, b, free) && InPlay(o, lo, hi, b, free) && a in Addrs(o) && a !in free
    ensures var m' := m[a + NEXT_FREE := NULL][a + PREV_FREE := NULL];
            Stage(m', head, lo, hi, b, free) && Touched(m, m', Owner(o, head))
  {
    InPlaySpread(o, head, lo, hi, b, free);
    ListedOwns(o, lo, hi, head, a);
    ClearLinks(m, Owner(o, head), head, Addrs(b), Marks(b), free, a);
  }

  lemma {:induction false} MarkStage(m: Memory, head: int, lo: int, hi: int, b: seq<Block>, free: seq<int>, k: nat,
          u: bool)
    requires Stage(m, head, lo, hi, b, free) && Listed(b, free) && k < |b|
    ensures var (m', b') := (m[b[k].addr + MAGIC_AT := MAGIC + (if u then 1 else 0)], b[k := b[k].(used := u)]);
            Stage(m', head, lo, hi, b', free) && Addrs(b') == Addrs(b) && Touched(m, m', Owner(b, head))
  {
    var b' := b[k := b[k].(used := u)];
    assert Addrs(b') == Addrs(b) && Marks(b') == Marks(b)[k := u];
    MarkTiles(b, lo, hi, k, u);
    ApartAddrs(b, lo, hi, head);
    ApartList(b, lo, hi, head, free);
    SetMark(m, Owner(b, head), head, Addrs(b), Marks(b), free, k, u);
  }

  /** What the words of item `k` say. */
  lemma {:induction false} StageRead(m: Memory, head: int, lo: int, hi: int, b: seq<Block>, free: seq<int>, k: nat)
    requires Stage(m, head, lo, hi, b, free) && k < |b|
    ensures Field(m, b[k].addr, NEXT) == b[After(k, |b|)].addr && Field(m, b[k].addr, PREV) == b[Before(k, |b|)].addr
    ensures (Field(m, b[k].addr, MAGIC_AT) % 2 == 1) == b[k].used
  {
    hide Ring, Tiles;
    RingAt(m, Addrs(b), NEXT, k);
    assert Addrs(b)[k] == b[k].addr;
  }

  lemma {:induction false} StageMark(m: Memory, head: int, lo: int, hi: int, b: seq<Block>, free: seq<int>, k: nat)
    requires Stage(m, head, lo, hi, b, free) && k < |b|
    ensures WithUsed(Field(m, b[k].addr, MAGIC_AT)) == MAGIC + 1 && WithoutUsed(Field(m, b[k].addr, MAGIC_AT)) == MAGIC
  {
    hide Ring, Tiles;
    assert Addrs(b)[k] == b[k].addr;
  }

  lemma {:induction false} MarkTiles(b: seq<Block>, lo: int, hi: int, k: nat, u: bool)
    requires Tiles(b, lo, hi) && k < |b|
    ensures Tiles(b[k := b[k].(used := u)], lo, hi)
  {
    TilesApart(b, lo, hi);
    var x := b[k].(used := u);
    assert [x][1..] == [];
    SpliceTiles(b, k, k + 1, [x], lo, hi);
    assert Splice(b, k, k + 1, [x]) == b[k := x];
  }

  // ---- the operations on the words ----

  /** Taking block `k` off the free ring for `n` words, splitting it if the rest is large enough. */
  function AllocWords(m: Memory, head: int, f: Block, n: int): Memory {
    var nw := f.addr + HEADER + n;
    var split := f.size >= n + HEADER + MINIALLOC;
    var m1 := if split then Linked(Stamped(m, nw, head), f.addr, nw, NEXT) else m;
    var m2 := Unlinked(m1, f.addr, NEXT_FREE);
    var m3 := m2[f.addr + NEXT_FREE := NULL][f.addr + PREV_FREE := NULL];
    var m4 := if split then Linked(m3, head, nw, NEXT_FREE) else m3;
    m4[f.addr + MAGIC_AT := WithUsed(Field(m4, f.addr, MAGIC_AT))]
  }

  lemma {:induction false} KeptTrans(m: Memory, m1: Memory, m2: Memory, h: Heap, h': Heap)
    requires Kept(m, m1, h, h') && Kept(m1, m2, h, h')
    ensures Kept(m, m2, h, h')
  {
  }

  lemma {:induction false} SameInPlay(b: seq<Block>, lo: int, hi: int, free: seq<int>)
    requires b != [] && Tiles(b, lo, hi) && Listed(b, free)
    ensures InPlay(b, lo, hi, b, free)
  {
    AddrsListed(b, lo, hi);
  }

  /** The steps that end both ways of allocating: off the free ring and marked used. */
  lemma {:induction false} TakeStage(m: Memory, head: int, lo: int, hi: int, b: seq<Block>, free: seq<int>, k: nat,
          p: nat)
    requires Stage(m, head, lo, hi, b, free) && Listed(b, free) && k < |b| && p < |free| && free[p] == b[k].addr
    ensures var m1 := Unlinked(m, b[k].addr, NEXT_FREE);
            var m2 := m1[b[k].addr + NEXT_FREE := NULL][b[k].addr + PREV_FREE := NULL];
            && Stage(m2, head, lo, hi, b, Removed(free, p)) && Listed(b, Removed(free, p))
            && Touched(m, m1, Owner(b, head)) && Touched(m1, m2, Owner(b, head))
  {
    hide Shape, Listed, InPlay, Touched, Tiles;
    SameInPlay(b, lo, hi, free);
    UnfreeStage(m, head, lo, hi, b, free, p, b);
    SameInPlay(b, lo, hi, Removed(free, p));
    assert Addrs(b)[k] == b[k].addr;
    ClearStage(Unlinked(m, b[k].addr, NEXT_FREE), head, lo, hi, b, Removed(free, p), b[k].addr, b);
  }

  lemma {:induction false} RepStage(m: Memory, h: Heap, head: int)
    requires Represents(m, h, head)
    ensures Stage(m, head, h.start, h.start + h.pool, h.blocks, h.free) && Listed(h.blocks, h.free) && Wf(h)
    ensures Outside(head, h.start, h.start + h.pool)
  {
    FreeIsList(h);
  }

  lemma {:induction false} StageRep(m: Memory, h: Heap, head: int)
    requires Stage(m, head, h.start, h.start + h.pool, h.blocks, h.free) && Wf(h)
    ensures Represents(m, h, head)
  {
  }

  lemma {:induction false} RingWithout(h: Heap, p: nat)
    requires Wf(h) && p < |h.free|
    ensures Without(h.free, h.free[p]) == Removed(h.free, p)
  {
    FreeIsList(h);
    WithoutIsRemoved(h.free, p);
  }

  lemma {:induction false} WholeFacts(m: Memory, head: int, h: Heap, k: nat, n: int, p: nat)
    requires Wf(h) && k + 1 < |h.blocks| && h.blocks[k].size < n + HEADER + MINIALLOC
    requires p < |h.free| && h.free[p] == h.blocks[k].addr
    ensures var (f, h') := (h.blocks[k], AllocAt(h, k, n));
            && h'.blocks == h.blocks[k := f.(used := true)] && h'.free == Removed(h.free, p)
            && h'.start == h.start && h'.pool == h.pool
            && AllocWords(m, head, f, n) ==
               var m2 := Unlinked(m, f.addr, NEXT_FREE)[f.addr + NEXT_FREE := NULL][f.addr + PREV_FREE := NULL];
               m2[f.addr + MAGIC_AT := WithUsed(Field(m2, f.addr, MAGIC_AT))]
  {
    hide Wf, Without, Removed;
    RingWithout(h, p);
  }

  /** A block handed out whole. */
  lemma {:induction false} WholeWords(m: Memory, h: Heap, head: int, k: nat, n: int, p: nat)
    requires Represents(m, h, head) && k + 1 < |h.blocks| && Wf(AllocAt(h, k, n))
    requires !h.blocks[k].used && h.blocks[k].size < n + HEADER + MINIALLOC
    requires p < |h.free| && h.free[p] == h.blocks[k].addr
    ensures var (m', h') := (AllocWords(m, head, h.blocks[k], n), AllocAt(h, k, n));
            Represents(m', h', head) && Kept(m, m', h, h')
  {
    hide *;
    var (lo, hi, b, f, h') := (h.start, h.start + h.pool, h.blocks, h.blocks[k], AllocAt(h, k, n));
    var m1 := Unlinked(m, f.addr, NEXT_FREE);
    var m2 := m1[f.addr + NEXT_FREE := NULL][f.addr + PREV_FREE := NULL];
    var m3 := m2[f.addr + MAGIC_AT := MAGIC + 1];
    RepStage(m, h, head);
    WholeFacts(m, head, h, k, n, p);
    TakeStage(m, head, lo, hi, b, h.free, k, p);
    StageMark(m2, head, lo, hi, b, Removed(h.free, p), k);
    MarkStage(m2, head, lo, hi, b, Removed(h.free, p), k, true);
    StageRep(m3, h', head);
    TouchedKept(m, m1, b, head, h, h');
    TouchedKept(m1, m2, b, head, h, h');
    TouchedKept(m2, m3, b, head, h, h');
    KeptTrans(m, m1, m2, h, h');
    KeptTrans(m, m2, m3, h, h');
  }

  lemma {:induction false} SplitFacts(m: Memory, head: int, h: Heap, k: nat, n: int, p: nat)
    requires Wf(h) && k + 1 < |h.blocks| && h.blocks[k].size >= n + HEADER + MINIALLOC
    requires p < |h.free| && h.free[p] == h.blocks[k].addr
    ensures var (f, h', nw) := (h.blocks[k], AllocAt(h, k, n), h.blocks[k].addr + HEADER + n);
            var b1 := Splice(h.blocks, k, k + 1, CutRun(f, n));
            && |b1| == |h.blocks| + 1 && b1[k].addr == f.addr && b1[k].used == f.used && n + HEADER <= f.size
            && h'.blocks == b1[k := b1[k].(used := true)] && h'.free == [nw] + Removed(h.free, p)
            && h'.start == h.start && h'.pool == h.pool
            && AllocWords(m, head, f, n) ==
               var m1 := Linked(Stamped(m, nw, head), f.addr, nw, NEXT);
               var m2 := Unlinked(m1, f.addr, NEXT_FREE)[f.addr + NEXT_FREE := NULL][f.addr + PREV_FREE := NULL];
               var m4 := Linked(m2, head, nw, NEXT_FREE);
               m4[f.addr + MAGIC_AT := WithUsed(Field(m4, f.addr, MAGIC_AT))]
  {
    hide Wf, Without, Removed, Linked, Unlinked, Stamped, WithUsed, AllocWords;
    RingWithout(h, p);
    SplitMemory(m, head, h.blocks[k], n);
    var (b, f) := (h.blocks, h.blocks[k]);
    var b1 := Splice(b, k, k + 1, CutRun(f, n));
    assert b1[k := b1[k].(used := true)] == Splice(b, k, k + 1, AllocRun(f, n));
  }

  /** The assignments of a splitting allocation, in order. */
  lemma {:induction false} SplitMemory(m: Memory, head: int, f: Block, n: int)
    requires f.size >= n + HEADER + MINIALLOC
    ensures var nw := f.addr + HEADER + n;
            AllocWords(m, head, f, n) ==
            var m1 := Linked(Stamped(m, nw, head), f.addr, nw, NEXT);
            var m2 := Unlinked(m1, f.addr, NEXT_FREE)[f.addr + NEXT_FREE := NULL][f.addr + PREV_FREE := NULL];
            var m4 := Linked(m2, head, nw, NEXT_FREE);
            m4[f.addr + MAGIC_AT := WithUsed(Field(m4, f.addr, MAGIC_AT))]
  {
    hide Linked, Unlinked, Stamped, WithUsed;
  }

  lemma {:induction false} SplitWords(m: Memory, h: Heap, head: int, k: nat, n: int, p: nat)
    requires Represents(m, h, head) && k + 1 < |h.blocks| && Wf(AllocAt(h, k, n)) && 0 <= n
    requires !h.blocks[k].used && h.blocks[k].size >= n + HEADER + MINIALLOC
    requires p < |h.free| && h.free[p] == h.blocks[k].addr
    ensures var (m', h') := (AllocWords(m, head, h.blocks[k], n), AllocAt(h, k, n));
            Represents(m', h', head) && Kept(m, m', h, h')
  {
    hide *;
    var (lo, hi, b, f, h') := (h.start, h.start + h.pool, h.blocks, h.blocks[k], AllocAt(h, k, n));
    var nw, b1, free1 := f.addr + HEADER + n, Splice(b, k, k + 1, CutRun(f, n)), Removed(h.free, p);
    var m1 := Linked(Stamped(m, nw, head), f.addr, nw, NEXT);
    var m2 := Unlinked(m1, f.addr, NEXT_FREE);
    var m3 := m2[f.addr + NEXT_FREE := NULL][f.addr + PREV_FREE := NULL];
    var m4 := Linked(m3, head, nw, NEXT_FREE);
    var m5 := m4[f.addr + MAGIC_AT := MAGIC + 1];
    RepStage(m, h, head);
    SplitFacts(m, head, h, k, n, p);
    CutStage(m, head, lo, hi, b, h.free, k, n);
    TakeStage(m1, head, lo, hi, b1, h.free, k, p);
    NotRemoved(h.free, p, nw);
    StageInPlay(m3, head, lo, hi, b1, free1);
    RefreeStage(m3, head, lo, hi, b1, free1, nw, b1);
    ListedFront(b1, free1, nw);
    StageMark(m4, head, lo, hi, b1, [nw] + free1, k);
    MarkStage(m4, head, lo, hi, b1, [nw] + free1, k, true);
    StageRep(m5, h', head);
    TouchedKept(m, m1, b1, head, h, h');
    TouchedKept(m1, m2, b1, head, h, h');
    TouchedKept(m2, m3, b1, head, h, h');
    TouchedKept(m3, m4, b1, head, h, h');
    TouchedKept(m4, m5, b1, head, h, h');
    KeptTrans(m, m1, m2, h, h');
    KeptTrans(m, m2, m3, h, h');
    KeptTrans(m, m3, m4, h, h');
    KeptTrans(m, m4, m5, h, h');
  }

  lemma {:induction false} NotRemoved(s: seq<int>, p: nat, a: int)
    requires p < |s| && a !in s
    ensures a !in Removed(s, p)
  {
  }

  lemma {:induction false} ListedFront(b: seq<Block>, s: seq<int>, a: int)
    requires Listed(b, s) && a in Addrs(b) && a !in s
    ensures Listed(b, [a] + s)
  {
  }

  lemma {:induction false} StageInPlay(m: Memory, head: int, lo: int, hi: int, b: seq<Block>, free: seq<int>)
    requires Stage(m, head, lo, hi, b, free) && Listed(b, free)
    ensures InPlay(b, lo, hi, b, free)
  {
    AddrsListed(b, lo, hi);
  }

  /** Marking block `k` free, joining it with free neighbours and putting it on the free ring. */
  function ReleaseWords(m: Memory, head: int, b: seq<Block>, k: nat): Memory
    requires k < |b|
  {
    var l := MergeFrom(b, k);
    var m1 := m[b[k].addr + MAGIC_AT := WithoutUsed(Field(m, b[k].addr, MAGIC_AT))];
    var m2 := if l < k then Unlinked(m1, b[k].addr, NEXT) else m1;
    var m3 := RightWords(m2, b, k);
    if l < k then m3 else Linked(m3, head, b[k].addr, NEXT_FREE)
  }

  function RightWords(m: Memory, b: seq<Block>, k: nat): Memory
    requires k < |b|
  {
    if MergeTo(b, k) == k + 2 then Unlinked(Unlinked(m, b[k + 1].addr, NEXT), b[k + 1].addr, NEXT_FREE) else m
  }

  function RightFree(h: Heap, k: nat): seq<int>
    requires k < |h.blocks|
  {
    if MergeTo(h.blocks, k) == k + 2 then Without(h.free, h.blocks[k + 1].addr) else h.free
  }

  /** The blocks after marking, after joining to the left and after joining to the right. */
  function Unmarked(b: seq<Block>, k: nat): seq<Block>
    requires k < |b|
  {
    b[k := b[k].(used := false)]
  }

  function LeftJoined(b: seq<Block>, k: nat): seq<Block>
    requires k < |b|
  {
    if MergeFrom(b, k) < k then Joined(Unmarked(b, k), k - 1) else Unmarked(b, k)
  }

  lemma {:induction false} LeftJoinedAt(b: seq<Block>, k: nat)
    requires k < |b|
    ensures var (c, l, r) := (LeftJoined(b, k), MergeFrom(b, k), MergeTo(b, k));
            && l < |c| && c[l].addr == b[l].addr && !c[l].used
            && (k + 1 < |b| ==> l + 1 < |c| && c[l + 1] == b[k + 1])
  {
  }

  lemma {:induction false} MergeIsJoins(b: seq<Block>, lo: int, hi: int, k: nat)
    requires Tiles(b, lo, hi) && k < |b|
    ensures var (c, l, r) := (LeftJoined(b, k), MergeFrom(b, k), MergeTo(b, k));
            && (r == k + 2 ==> l + 1 < |c|)
            && Splice(b, l, r, MergeRun(b, k)) == if r == k + 2 then Joined(c, l) else c
  {
    hide Tiles, LeftJoined;
    var (l, r) := (MergeFrom(b, k), MergeTo(b, k));
    var x := Block(b[l].addr, b[k].End() - b[l].addr - HEADER, false);
    LeftIsSplice(b, lo, hi, k);
    if r == k + 2 {
      TilesNext(b, lo, hi, k);
      SpliceOverlap(b, l, k + 1, x, MergeRun(b, k)[0]);
      LeftJoinedAt(b, k);
    }
  }

  lemma {:induction false} TilesNext(b: seq<Block>, lo: int, hi: int, k: nat)
    requires Tiles(b, lo, hi) && k + 1 < |b|
    ensures b[k].End() == b[k + 1].addr
  {
    TilesApart(b, lo, hi);
  }

  lemma {:induction false} SpliceOverlap(b: seq<Block>, l: nat, r: nat, x: Block, y: Block)
    requires l <= r < |b|
    ensures var s := Splice(b, l, r, [x]); l + 2 <= |s| && Splice(s, l, l + 2, [y]) == Splice(b, l, r + 1, [y])
  {
    var s := Splice(b, l, r, [x]);
    assert s[..l] == b[..l] && s[l + 2..] == b[r + 1..];
  }

  lemma {:induction false} LeftIsSplice(b: seq<Block>, lo: int, hi: int, k: nat)
    requires Tiles(b, lo, hi) && k < |b|
    ensures var l := MergeFrom(b, k);
            LeftJoined(b, k) == Splice(b, l, k + 1, [Block(b[l].addr, b[k].End() - b[l].addr - HEADER, false)])
  {
    var c := Unmarked(b, k);
    if MergeFrom(b, k) < k {
      TilesNext(b, lo, hi, k - 1);
      assert c[..k - 1] == b[..k - 1] && c[k + 1..] == b[k + 1..];
    } else {
      assert b[k := b[k].(used := false)] == b[..k] + [b[k].(used := false)] + b[k + 1..];
    }
  }

  lemma {:induction false} UsedNotFree(h: Heap, k: nat)
    requires Wf(h) && k < |h.blocks| && h.blocks[k].used
    ensures h.blocks[k].addr !in h.free
  {
    UnusedIff(h.blocks, h.start, h.start + h.pool, h.blocks[k].addr);
    OccursIff(h.free, h.blocks[k].addr);
    TilesApart(h.blocks, h.start, h.start + h.pool);
  }

  /** Marking and joining to the left. */
  lemma {:induction false} LeftStage(m: Memory, head: int, lo: int, hi: int, b: seq<Block>, free: seq<int>, k: nat)
    requires Stage(m, head, lo, hi, b, free) && Listed(b, free) && k < |b| && b[k].addr !in free
    ensures var m1 := m[b[k].addr + MAGIC_AT := MAGIC];
            var m2 := if MergeFrom(b, k) < k then Unlinked(m1, b[k].addr, NEXT) else m1;
            && Stage(m2, head, lo, hi, LeftJoined(b, k), free) && Listed(LeftJoined(b, k), free)
            && (forall a | a in Addrs(LeftJoined(b, k)) :: a in Addrs(b))
            && Touched(m, m1, Owner(b, head)) && Touched(m1, m2, Owner(Unmarked(b, k), head))
            && Addrs(Unmarked(b, k)) == Addrs(b)
  {
    MarkStage(m, head, lo, hi, b, free, k, false);
    var b1, m1 := Unmarked(b, k), m[b[k].addr + MAGIC_AT := MAGIC];
    ListedIn(b, b1, free);
    if MergeFrom(b, k) < k {
      JoinStage(m1, head, lo, hi, b1, free, k - 1);
    }
  }

  /** Joining block `l + 1` of `c` to block `l` and taking it off the free ring. */
  lemma {:induction false} RightStage(m: Memory, head: int, lo: int, hi: int, c: seq<Block>, free: seq<int>, l: nat,
          p: nat)
    requires Stage(m, head, lo, hi, c, free) && Listed(c, free) && l + 1 < |c| && p < |free| && free[p] == c[l + 1].addr
    ensures var m1 := Unlinked(m, c[l + 1].addr, NEXT);
            var m2 := Unlinked(m1, c[l + 1].addr, NEXT_FREE);
            && Stage(m2, head, lo, hi, Joined(c, l), Removed(free, p)) && Listed(Joined(c, l), Removed(free, p))
            && Touched(m, m1, Owner(c, head)) && Touched(m1, m2, Owner(c, head))
  {
    hide *;
    JoinStage(m, head, lo, hi, c, free, l);
    StageInPlay(m, head, lo, hi, c, free);
    InPlaySub(c, lo, hi, c, Joined(c, l), free);
    UnfreeStage(Unlinked(m, c[l + 1].addr, NEXT), head, lo, hi, Joined(c, l), free, p, c);
    JoinListed(c, l, Removed(free, p));
  }

  lemma {:induction false} InPlaySub(o: seq<Block>, lo: int, hi: int, b: seq<Block>, b': seq<Block>, free: seq<int>)
    requires InPlay(o, lo, hi, b, free) && Listed(o, Addrs(b'))
    ensures InPlay(o, lo, hi, b', free)
    ensures Listed(o, Addrs(b)) && Listed(o, free)
  {
  }

  lemma {:induction false} JoinListed(c: seq<Block>, l: nat, s: seq<int>)
    requires l + 1 < |c| && Listed(c, s) && Listed(c, Addrs(c)) && c[l + 1].addr !in s
    ensures Listed(Joined(c, l), s)
  {
    hide Listed, Addrs, Joined;
    JoinLists(c, l);
    ListedRemoved(c, Joined(c, l), s, l + 1);
  }

  lemma {:induction false} FreeAtFacts(h: Heap, k: nat)
    requires Wf(h) && k + 1 < |h.blocks| && h.blocks[k].used
    ensures var (b, c, l, r, h') :=
            (h.blocks, LeftJoined(h.blocks, k), MergeFrom(h.blocks, k), MergeTo(h.blocks, k), FreeAt(h, k));
            && h'.start == h.start && h'.pool == h.pool
            && l <= k && (r == k + 2 || r == k + 1) && (l < k || l == k)
            && (r == k + 2 ==> l + 1 < |c| && c[l + 1].addr == b[k + 1].addr && h'.blocks == Joined(c, l))
            && (r == k + 1 ==> h'.blocks == c)
            && h'.free == (if l < k then RightFree(h, k) else [b[k].addr] + RightFree(h, k))
            && b[k].addr !in RightFree(h, k) && b[l].addr in Addrs(h'.blocks)
  {
    hide Joined, LeftJoined, Splice, Without;
    MergeIsJoins(h.blocks, h.start, h.start + h.pool, k);
    LeftJoinedAt(h.blocks, k);
    UsedNotFree(h, k);
    WithoutIn(h.free, h.blocks[MergeTo(h.blocks, k) - 1].addr, h.blocks[k].addr);
    var l := MergeFrom(h.blocks, k);
    SpliceHas(h.blocks, l, MergeTo(h.blocks, k), MergeRun(h.blocks, k)[0]);
  }

  lemma {:induction false} SpliceHas(b: seq<Block>, l: nat, r: nat, x: Block)
    requires l <= r <= |b|
    ensures x.addr in Addrs(Splice(b, l, r, [x]))
  {
    assert Splice(b, l, r, [x])[l] == x;
    assert Addrs(Splice(b, l, r, [x]))[l] == x.addr;
  }

  lemma {:induction false} WithoutIn(s: seq<int>, a: int, x: int)
    requires x !in s
    ensures x !in Without(s, a)
  {
    if s != [] && s[0] != a { WithoutIn(s[1..], a, x); }
  }

  /** Where the block after `k` is on the free ring. */
  lemma {:induction false} RightIndex(h: Heap, k: nat) returns (p: nat)
    requires Wf(h) && k + 1 < |h.blocks| && MergeTo(h.blocks, k) == k + 2
    ensures p < |h.free| && h.free[p] == h.blocks[k + 1].addr && RightFree(h, k) == Removed(h.free, p)
  {
    FreeOnRing(h, k + 1);
    p :| p < |h.free| && h.free[p] == h.blocks[k + 1].addr;
    RingWithout(h, p);
  }

  lemma {:induction false} RightPhase(m: Memory, h: Heap, head: int, k: nat)
    requires Wf(h) && k + 1 < |h.blocks| && h.blocks[k].used && Wf(FreeAt(h, k))
    requires var c := LeftJoined(h.blocks, k);
             && Stage(m, head, h.start, h.start + h.pool, c, h.free) && Listed(c, h.free)
             && forall a | a in Addrs(c) :: a in Addrs(h.blocks)
    requires Outside(head, h.start, h.start + h.pool)
    ensures var (m', h') := (RightWords(m, h.blocks, k), FreeAt(h, k));
            && Stage(m', head, h.start, h.start + h.pool, h'.blocks, RightFree(h, k))
            && Listed(h'.blocks, RightFree(h, k))
            && Kept(m, m', h, h')
  {
    hide Wf, FreeAt, LeftJoined, Stage, Listed, Joined, Unlinked, Touched, Kept, Outside, Addrs, Owner, Removed,
         Without, MergeTo, MergeFrom, Live, SizeOf;
    var (lo, hi, c, l, h') :=
        (h.start, h.start + h.pool, LeftJoined(h.blocks, k), MergeFrom(h.blocks, k), FreeAt(h, k));
    FreeAtFacts(h, k);
    if MergeTo(h.blocks, k) == k + 2 {
      var p := RightIndex(h, k);
      RightStage(m, head, lo, hi, c, h.free, l, p);
      var m1 := Unlinked(m, c[l + 1].addr, NEXT);
      var m2 := Unlinked(m1, c[l + 1].addr, NEXT_FREE);
      TouchedKept(m, m1, c, head, h, h');
      TouchedKept(m1, m2, c, head, h, h');
      KeptTrans(m, m1, m2, h, h');
    } else {
      KeptSame(m, h, h');
    }
  }

  lemma {:induction false} KeptSame(m: Memory, h: Heap, h': Heap)
    ensures Kept(m, m, h, h')
  {
  }

  lemma {:induction false} ReleaseRep(m: Memory, h: Heap, head: int, k: nat)
    requires Represents(m, h, head) && k + 1 < |h.blocks| && h.blocks[k].used && Wf(FreeAt(h, k))
    ensures var (m', h') := (ReleaseWords(m, head, h.blocks, k), FreeAt(h, k));
            Represents(m', h', head) && Kept(m, m', h, h')
  {
    hide Wf, FreeAt, LeftJoined, Stage, Listed, Joined, Unlinked, Touched, Kept, Outside, Addrs, Owner, MergeTo,
         MergeFrom, Live, SizeOf, RightWords, RightFree, Represents, Linked, Unmarked;
    var (lo, hi, b, l, h') := (h.start, h.start + h.pool, h.blocks, MergeFrom(h.blocks, k), FreeAt(h, k));
    var m1 := m[b[k].addr + MAGIC_AT := MAGIC];
    var m2 := if l < k then Unlinked(m1, b[k].addr, NEXT) else m1;
    var m3 := RightWords(m2, b, k);
    RepStage(m, h, head);
    UsedNotFree(h, k);
    StageMark(m, head, lo, hi, b, h.free, k);
    LeftStage(m, head, lo, hi, b, h.free, k);
    TouchedKept(m, m1, b, head, h, h');
    TouchedKept(m1, m2, Unmarked(b, k), head, h, h');
    KeptTrans(m, m1, m2, h, h');
    RightPhase(m2, h, head, k);
    KeptTrans(m, m2, m3, h, h');
    FreeAtFacts(h, k);
    if l == k {
      StageInPlay(m3, head, lo, hi, h'.blocks, RightFree(h, k));
      RefreeStage(m3, head, lo, hi, h'.blocks, RightFree(h, k), b[k].addr, h'.blocks);
      var m4 := Linked(m3, head, b[k].addr, NEXT_FREE);
      TouchedKept(m3, m4, h'.blocks, head, h, h');
      KeptTrans(m, m3, m4, h, h');
    }
    StageRep(ReleaseWords(m, head, b, k), h', head);
  }

  /** Rebuilding the free block after block `k` further right, so that block `k` holds `n` words. */
  function GrowWords(m: Memory, head: int, x: Block, nx: Block, n: int): Memory {
    var nw := x.addr + HEADER + n;
    var m2 := Unlinked(Unlinked(m, nx.addr, NEXT_FREE), nx.addr, NEXT);
    Linked(Linked(Stamped(m2, nw, head), x.addr, nw, NEXT), head, nw, NEXT_FREE)
  }

  lemma {:induction false} GrowFacts(h: Heap, k: nat, n: int, p: nat)
    requires Wf(h) && k + 1 < |h.blocks| && h.blocks[k].used
    requires n <= h.blocks[k].size + h.blocks[k + 1].size
    requires p < |h.free| && h.free[p] == h.blocks[k + 1].addr
    ensures var (c, x, h') := (Joined(h.blocks, k), h.blocks[k], GrowAt(h, k, n));
            && h'.start == h.start && h'.pool == h.pool && k < |c| && c[k].addr == x.addr && n + HEADER <= c[k].size
            && h'.blocks == Splice(c, k, k + 1, CutRun(c[k], n))
            && h'.free == [x.addr + HEADER + n] + Removed(h.free, p)
  {
    hide Wf, Without, Removed;
    RingWithout(h, p);
    var y := Block(h.blocks[k].addr, h.blocks[k].size + HEADER + h.blocks[k + 1].size, h.blocks[k].used);
    SpliceInner(h.blocks, k, y, CutRun(y, n));
  }

  lemma {:induction false} SpliceInner(b: seq<Block>, k: nat, y: Block, mid: seq<Block>)
    requires k + 1 < |b|
    ensures var c := Splice(b, k, k + 2, [y]);
            k < |c| && c[k] == y && Splice(c, k, k + 1, mid) == Splice(b, k, k + 2, mid)
  {
    var c := Splice(b, k, k + 2, [y]);
    assert c[..k] == b[..k] && c[k + 1..] == b[k + 2..];
  }

  lemma {:induction false} GrowRep(m: Memory, h: Heap, head: int, k: nat, n: int, p: nat)
    requires Represents(m, h, head) && k + 1 < |h.blocks| && h.blocks[k].used && Wf(GrowAt(h, k, n))
    requires 0 <= n <= h.blocks[k].size + h.blocks[k + 1].size
    requires p < |h.free| && h.free[p] == h.blocks[k + 1].addr
    ensures var (m', h') := (GrowWords(m, head, h.blocks[k], h.blocks[k + 1], n), GrowAt(h, k, n));
            Represents(m', h', head) && Kept(m, m', h, h')
  {
    hide Wf, GrowAt, Stage, Listed, Joined, Unlinked, Touched, Kept, Outside, Addrs, Owner, Live, SizeOf, Represents,
         Linked, Stamped, Removed, Splice, CutRun, InPlay;
    var (lo, hi, b, x, nx, h') := (h.start, h.start + h.pool, h.blocks, h.blocks[k], h.blocks[k + 1], GrowAt(h, k, n));
    var nw, c, free1 := x.addr + HEADER + n, Joined(b, k), Removed(h.free, p);
    var m1 := Unlinked(m, nx.addr, NEXT_FREE);
    var m2 := Unlinked(m1, nx.addr, NEXT);
    var m3 := Linked(Stamped(m2, nw, head), x.addr, nw, NEXT);
    var m4 := Linked(m3, head, nw, NEXT_FREE);
    RepStage(m, h, head);
    GrowFacts(h, k, n, p);
    StageInPlay(m, head, lo, hi, b, h.free);
    UnfreeStage(m, head, lo, hi, b, h.free, p, b);
    JoinStage(m1, head, lo, hi, b, free1, k);
    CutStage(m2, head, lo, hi, c, free1, k, n);
    StageInPlay(m3, head, lo, hi, h'.blocks, free1);
    RefreeStage(m3, head, lo, hi, h'.blocks, free1, nw, h'.blocks);
    StageRep(m4, h', head);
    TouchedKept(m, m1, b, head, h, h');
    TouchedKept(m1, m2, b, head, h, h');
    TouchedKept(m2, m3, h'.blocks, head, h, h');
    TouchedKept(m3, m4, h'.blocks, head, h, h');
    KeptTrans(m, m1, m2, h, h');
    KeptTrans(m, m2, m3, h, h');
    KeptTrans(m, m3, m4, h, h');
  }

  /** Cutting block `k` after `n` words and freeing the rest, joined with a free block that follows. */
  function ShrinkWords(m: Memory, head: int, b: seq<Block>, k: nat, n: int): Memory
    requires k < |b|
  {
    var nw := b[k].addr + HEADER + n;
    Linked(RightWords(Linked(Stamped(m, nw, head), b[k].addr, nw, NEXT), b, k), head, nw, NEXT_FREE)
  }

  lemma {:induction false} ShrinkFacts(h: Heap, k: nat, n: int)
    requires Wf(h) && k + 1 < |h.blocks| && h.blocks[k].used
    ensures var (b, c, r, h') :=
            (h.blocks, Splice(h.blocks, k, k + 1, CutRun(h.blocks[k], n)), MergeTo(h.blocks, k), ShrinkAt(h, k, n));
            && h'.start == h.start && h'.pool == h.pool && (r == k + 1 || r == k + 2) && |c| == |b| + 1
            && (r == k + 2 ==> k + 2 < |c| && c[k + 2].addr == b[k + 1].addr && h'.blocks == Joined(c, k + 1))
            && (r == k + 1 ==> h'.blocks == c)
            && h'.free == [b[k].addr + HEADER + n] + RightFree(h, k)
            && b[k].addr + HEADER + n in Addrs(h'.blocks)
  {
    hide Without, Addrs;
    var b := h.blocks;
    if MergeTo(b, k) == k + 2 { TilesNext(b, h.start, h.start + h.pool, k); }
    ShrinkHas(h, k, n);
    ShrinkIsJoin(b, k, n);
  }

  lemma {:induction false} ShrinkIsJoin(b: seq<Block>, k: nat, n: int)
    requires k + 1 < |b| && b[k].used && (MergeTo(b, k) == k + 2 ==> b[k].End() == b[k + 1].addr)
    ensures var c := Splice(b, k, k + 1, CutRun(b[k], n));
            |c| == |b| + 1 && Splice(b, k, MergeTo(b, k), ShrinkRun(b, k, n)) ==
                if MergeTo(b, k) == k + 2 then Joined(c, k + 1) else c
  {
    var c := Splice(b, k, k + 1, CutRun(b[k], n));
    if MergeTo(b, k) == k + 2 {
      assert c[k + 1] == CutRun(b[k], n)[1] && c[k + 2] == b[k + 1];
      assert c[..k + 1] == b[..k] + [CutRun(b[k], n)[0]] && c[k + 3..] == b[k + 2..];
    }
  }

  lemma {:induction false} ShrinkHas(h: Heap, k: nat, n: int)
    requires k + 1 < |h.blocks|
    ensures h.blocks[k].addr + HEADER + n in Addrs(ShrinkAt(h, k, n).blocks)
  {
    assert Addrs(ShrinkAt(h, k, n).blocks)[k + 1] == h.blocks[k].addr + HEADER + n;
  }

  lemma {:induction false} ShrinkRep(m: Memory, h: Heap, head: int, k: nat, n: int)
    requires Represents(m, h, head) && k + 1 < |h.blocks| && h.blocks[k].used && Wf(ShrinkAt(h, k, n))
    requires 0 <= n && n + HEADER <= h.blocks[k].size
    ensures var (m', h') := (ShrinkWords(m, head, h.blocks, k, n), ShrinkAt(h, k, n));
            Represents(m', h', head) && Kept(m, m', h, h')
  {
    hide Wf, ShrinkAt, Stage, Listed, Joined, Unlinked, Touched, Kept, Outside, Addrs, Owner, Live, SizeOf, Represents,
         Linked, Stamped, Removed, Splice, CutRun, InPlay, RightFree, MergeTo;
    var (lo, hi, b, r, h') := (h.start, h.start + h.pool, h.blocks, MergeTo(h.blocks, k), ShrinkAt(h, k, n));
    var nw, c := b[k].addr + HEADER + n, Splice(b, k, k + 1, CutRun(b[k], n));
    var m1 := Linked(Stamped(m, nw, head), b[k].addr, nw, NEXT);
    var m3 := RightWords(m1, b, k);
    var m4 := Linked(m3, head, nw, NEXT_FREE);
    RepStage(m, h, head);
    ShrinkFacts(h, k, n);
    CutStage(m, head, lo, hi, b, h.free, k, n);
    CutAddrs(h, k, n);
    TouchedKept(m, m1, c, head, h, h');
    if r == k + 2 {
      var p := RightIndex(h, k);
      var m2 := Unlinked(m1, b[k + 1].addr, NEXT);
      RightStage(m1, head, lo, hi, c, h.free, k + 1, p);
      NotRemoved(h.free, p, nw);
      TouchedKept(m1, m2, c, head, h, h');
      TouchedKept(m2, m3, c, head, h, h');
      KeptTrans(m, m1, m2, h, h');
      KeptTrans(m, m2, m3, h, h');
    } else {
      RightNone(h, m1, k);
    }
    StageInPlay(m3, head, lo, hi, h'.blocks, RightFree(h, k));
    RefreeStage(m3, head, lo, hi, h'.blocks, RightFree(h, k), nw, h'.blocks);
    StageRep(m4, h', head);
    TouchedKept(m3, m4, h'.blocks, head, h, h');
    KeptTrans(m, m3, m4, h, h');
  }

  lemma {:induction false} RightNone(h: Heap, m: Memory, k: nat)
    requires k < |h.blocks| && MergeTo(h.blocks, k) != k + 2
    ensures RightFree(h, k) == h.free && RightWords(m, h.blocks, k) == m
  {
  }

  /** The items of a cut pool are items of the heap before or after. */
  lemma {:induction false} CutAddrs(h: Heap, k: nat, n: int)
    requires k + 1 < |h.blocks|
    ensures forall a | a in Addrs(Splice(h.blocks, k, k + 1, CutRun(h.blocks[k], n))) ::
              a in Addrs(h.blocks) || a in Addrs(ShrinkAt(h, k, n).blocks)
  {
    hide Addrs, Splice, ShrinkAt, CutRun;
    CutLists(h.blocks, k, n);
    ShrinkHas(h, k, n);
  }
}
