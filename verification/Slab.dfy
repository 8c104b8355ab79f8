/** rt_malloc and rt_free of src/slab.c with their state updated in place; the ghost field `s` is that
    state as one value. */
module Slab {
  import opened Seqs
  import opened Options
  import opened SlabPages
  import opened SlabGround
  import opened SlabSpec
  import opened SlabProps

  lemma {:induction false} WithoutAt(xs: seq<nat>, i: nat, x: nat)
    requires i < |xs| && xs[i] == x && x !in xs[..i]
    ensures Without(xs, x) == xs[..i] + xs[i + 1..]
    decreases i
  {
    if i == 0 {
      assert xs[..0] + xs[1..] == xs[1..];
    } else {
      assert xs[0] in xs[..i];
      assert xs[1..][..i - 1] == xs[..i][1..];
      WithoutAt(xs[1..], i - 1, x);
      assert xs[..i] + xs[i + 1..] == [xs[0]] + (xs[1..][..i - 1] + xs[1..][i..]);
    }
  }

  class SlabHeap {
    const zpages: nat
    const pages: PageList
    var usage: map<int, Usage>
    var zones: map<int, Zone>
    var lists: seq<seq<nat>>
    var spare: seq<nat>
    var cnt: nat
    ghost var s: SlabSpec.Slab

    ghost predicate Models()
      reads this, pages
    {
      && s.g.zpages == zpages && s.g.pages == pages.list && s.g.usage == usage
      && s.zones == zones && s.lists == lists && s.spare == spare && s.cnt == cnt
    }

    ghost predicate Valid()
      reads this, pages
    {
      Models() && SlabOk(s)
    }

    /** rt_system_heap_init for `npages` pages, `m` of them for the descriptors. */
    constructor (npages: nat, m: nat)
      requires m < npages
      ensures Valid() && s == Init(npages, m) && fresh(pages)
    {
      zpages := ZonePages(npages * PAGE, 8);
      pages := new PageList(m, npages - m);
      usage, zones, lists, spare, cnt := map[], map[], seq(NZONES, _ => []), [], 0;
      s := Init(npages, m);
      InitOk(npages, m);
    }

    /** The descriptors of a new zone. */
    method DescribePages(a: nat)
      modifies this`usage
      ensures usage == Describe(old(usage), a, zpages)
    {
      var off := 0;
      while off < zpages
        invariant off <= zpages
        invariant forall p :: p in usage <==> Within(a, off, p) || p in old(usage)
        invariant forall p | p in usage ::
                    usage[p] == if Within(a, off, p) then Usage(SmallPage, p - a) else old(usage)[p]
      {
        usage := usage[a + off := Usage(SmallPage, off)];
        off := off + 1;
      }
    }

    method ErasePages(a: nat)
      modifies this`usage
      ensures usage == Erase(old(usage), a, zpages)
    {
      var i := 0;
      while i < zpages
        invariant i <= zpages
        invariant forall p :: p in usage <==> Within(a, i, p) || p in old(usage)
        invariant forall p | p in usage :: usage[p] == if Within(a, i, p) then Usage(FreePage, 0) else old(usage)[p]
      {
        usage := usage[a + i := Usage(FreePage, 0)];
        i := i + 1;
      }
    }

    /** The zone header written at the start of zone `zp`, and the zone put on its list. */
    method SetUp(zp: nat, zi: nat, size: nat) returns (chunk: nat)
      requires Models() && zi < |lists| && 0 < size == ChunkSize(zi) && FirstOffset(size) + size <= ZoneBytes(s.g)
      modifies this
      ensures Models() && (s, chunk) == Install(old(s), zp, zi)
    {
      hide FirstOffset, MaskedOffset, ChunkSize;
      NewZoneHas(ZoneBytes(s.g), FirstOffset(size), size);
      MaskedOffsetIs(size);
      var off := MaskedOffset(size);
      var nmax := (zpages * PAGE - off) / size;
      var z := Zone(nmax - 1, nmax, zp * PAGE + off, 0, size, zi, []);
      chunk := z.base + z.uindex * size;
      zones := zones[zp as int := z];
      lists := lists[zi := [zp] + lists[zi]];
      s := Install(s, zp, zi).0;
    }

    /** rt_malloc. */
    method Malloc(n: nat) returns (r: Option<nat>)
      requires Valid()
      modifies this, pages
      ensures Valid() && (s, r) == SlabSpec.Malloc(old(s), n)
    {
      hide SlabOk, Gains, Live, Install, ZoneIndex, ChunkSize, FirstOffset, Alloc, Claim, Describe, Bytes, Aside, Out;
      ghost var s0 := s;
      MallocOk(s0, n);
      if n == 0 { return None; }
      var limit := if zpages * 1024 > ZONE_LIMIT then ZONE_LIMIT else zpages * 1024;
      if n >= limit {
        var k := (n + PAGE - 1) / PAGE;
        var b := pages.PageAlloc(k);
        if b.None? { AllocNone(s0.g.pages, k); return None; }
        usage := usage[b.value as int := Usage(LargePage, k)];
        s := s.(g := TakeLarge(s0.g, k).0);
        return Some(b.value * PAGE);
      }
      SlabParts(s0, n);
      var (zi, size) := ZoneIndex(n);
      if lists[zi] != [] {
        FromZoneOk(s0, zi);
        var zp := lists[zi][0];
        var z := zones[zp];
        z := z.(nfree := z.nfree - 1);
        if z.nfree == 0 { lists := lists[zi := lists[zi][1..]]; }
        var chunk;
        if z.uindex + 1 != z.nmax {
          z := z.(uindex := z.uindex + 1);
          chunk := z.base + z.uindex * z.chunk;
        } else {
          chunk := z.free[0];
          z := z.(free := z.free[1..]);
        }
        zones := zones[zp as int := z];
        s := FromZone(s0, zi).0;
        return Some(chunk);
      }
      var zp;
      if spare != [] {
        zp := spare[0];
        spare := spare[1..];
        cnt := cnt - 1;
        s := s0.(spare := s0.spare[1..], cnt := s0.cnt - 1);
      } else {
        var b := pages.PageAlloc(zpages);
        if b.None? { AllocNone(s0.g.pages, zpages); return None; }
        zp := b.value;
        DescribePages(zp);
        s := s0.(g := TakeZone(s0.g).0);
      }
      var chunk := SetUp(zp, zi, size);
      return Some(chunk);
    }

    /** The loop that takes a zone off its list. */
    method Unlink(zi: nat, zp: nat)
      requires zi < |lists| && zp in lists[zi]
      modifies this`lists
      ensures lists == old(lists)[zi := Without(old(lists)[zi], zp)]
    {
      var list, i := lists[zi], 0;
      while list[i] != zp
        invariant i < |list| && zp !in list[..i] && zp in list[i..]
        decreases |list| - i
      {
        assert list[i..] == [list[i]] + list[i + 1..];
        i := i + 1;
      }
      WithoutAt(list, i, zp);
      lists := lists[zi := list[..i] + list[i + 1..]];
    }

    /** rt_free; RT_NULL is no block and is ignored. */
    method Free(ptr: Option<nat>)
      requires Valid() && (ptr.Some? ==> Live(s, ptr.value))
      modifies this, pages
      ensures Valid() && s == if ptr.None? then old(s) else FreeBlock(old(s), ptr.value)
    {
      if ptr.None? { return; }
      FreeAt(ptr.value);
    }

    method FreeAt(q: nat)
      requires Valid() && Live(s, q)
      modifies this, pages
      ensures Valid() && s == FreeBlock(old(s), q)
    {
      hide SlabOk, Live, Loses, Out, SlabPages.Free, Disclaim, Erase, Without, Has, Canon;
      ghost var s0 := s;
      FreeOk(s0, q);
      LiveKind(s0, q);
      FreeParts(s0, q);
      var u := usage[q / PAGE];
      if u.kind == LargePage {
        usage := usage[q / PAGE := Usage(LargePage, 0)];
        pages.PageFree(q / PAGE, u.size);
        s := FreeBlock(s0, q);
        return;
      }
      var zp := q / PAGE - u.size;
      var z := zones[zp];
      var zi := z.zi;
      if z.nfree == 0 { lists := lists[zi := [zp] + lists[zi]]; }
      z := z.(free := [q] + z.free, nfree := z.nfree + 1);
      zones := zones[zp := z];
      s := PutBack(s0, zp, q);
      if z.nfree == z.nmax && NotAlone(lists[zi], zp) {
        PutBackList(s0, zp, q);
        RetireZone(zp);
      }
    }

    /** An all free zone leaves its list; its pages go back when there are spare zones enough. */
    method RetireZone(zp: nat)
      requires Models() && zp in zones && zones[zp].zi < |lists| && zp in lists[zones[zp].zi] && zpages > 0
      modifies this, pages
      ensures Models() && s == Retire(old(s), zp)
    {
      hide Without, SlabPages.Free, Disclaim, Erase;
      ghost var s0 := s;
      Unlink(zones[zp].zi, zp);
      zones := zones - {zp};
      spare := [zp] + spare;
      cnt := cnt + 1;
      if cnt > THRESHOLD {
        spare := spare[1..];
        cnt := cnt - 1;
        ErasePages(zp);
        pages.PageFree(zp, zpages);
      }
      s := Retire(s0, zp);
    }
  }

  lemma {:induction false} AllocNone(rs: seq<Run>, n: nat)
    ensures Alloc(rs, n).1.None? ==> Alloc(rs, n).0 == rs
    decreases |rs|
  {
    if rs != [] && rs[0].len < n { AllocNone(rs[1..], n); }
  }

  /** What rt_malloc relies on for a small request. */
  lemma {:induction false} SlabParts(s: SlabSpec.Slab, n: nat)
    requires SlabOk(s) && 1 <= n < ZoneLimit(s.g)
    ensures var (zi, size) := ZoneIndex(n);
            && |s.lists| == NZONES && 0 <= zi < NZONES && 0 < size == ChunkSize(zi)
            && FirstOffset(size) + size <= ZoneBytes(s.g)
            && s.cnt == |s.spare| && s.g.zpages > 0 && ZoneBytes(TakeZone(s.g).0) == ZoneBytes(s.g)
  {
    ZoneFits(s.g, n);
    ZoneIndexOk(n);
  }

  lemma {:induction false} FreeParts(s: SlabSpec.Slab, q: nat)
    requires SlabOk(s) && Live(s, q)
    ensures s.cnt == |s.spare| && s.g.zpages > 0
    ensures q / PAGE in s.g.large ==>
            s.g.large[q / PAGE] > 0 && q / PAGE in s.g.usage && s.g.usage[q / PAGE].size == s.g.large[q / PAGE]
  {
  }

  /** After a chunk is put back its zone is on its list. */
  lemma {:induction false} PutBackList(s: SlabSpec.Slab, zp: nat, q: nat)
    requires SlabOk(s) && zp in s.zones && Out(s.zones[zp], q)
    ensures s.zones[zp].zi < NZONES == |s.lists| && zp in PutBack(s, zp, q).lists[s.zones[zp].zi]
  {
    assert ZoneOk(s.g, zp, s.zones[zp]);
    PutBackOk(s, zp, q);
    var s' := PutBack(s, zp, q);
    assert Listed(s', s.zones[zp].zi);
  }
}
