/** What rt_malloc and rt_free of src/slab.c keep, over every run. */
module SlabProps {
  import opened Seqs
  import opened SlabPages
  import opened SlabGround
  import opened SlabSpec
  import B = Bits

  // ---- chunks of a zone ----

  lemma {:induction false} ChunkInside(g: Ground, zp: int, z: Zone, q: nat)
    requires ZoneOk(g, zp, z) && IsChunk(z, q)
    ensures zp * PAGE + ZONE_HEADER <= q && q + z.chunk <= (zp + g.zpages) * PAGE
  {
    hide Distinct;
    var k: nat :| k <= z.uindex && q == Chunk(z, k);
    ChunkOrder(z, k, z.nmax);
    Times(0, k, z.chunk);
  }

  lemma {:induction false} ChunkOrder(z: Zone, j: nat, k: nat)
    requires j < k && z.chunk > 0
    ensures Chunk(z, j) + z.chunk <= Chunk(z, k)
  {
    Times(j + 1, k, z.chunk);
    assert (j + 1) * z.chunk == j * z.chunk + z.chunk;
  }

  lemma {:induction false} WithoutIs(xs: seq<nat>, x: nat)
    requires Distinct(xs)
    ensures var r := Without(xs, x);
            Distinct(r) && (forall y: nat :: y in r <==> y in xs && y != x)
                && |r| == (if x in xs then |xs| - 1 else |xs|)
    decreases |xs|
  {
    if xs != [] {
      assert xs == [xs[0]] + xs[1..];
      assert xs[0] !in xs[1..];
      WithoutIs(xs[1..], x);
      if xs[0] != x {
        var r := Without(xs[1..], x);
        assert xs[0] !in r;
      }
    }
  }

  /** Distinct chunks with an index below `m` are at most `m`. */
  lemma {:induction false} AtMost(z: Zone, m: nat, xs: seq<nat>)
    requires Distinct(xs) && forall x | x in xs :: exists k: nat :: k < m && x == Chunk(z, k)
    ensures |xs| <= m
    decreases m
  {
    if xs != [] {
      assert xs[0] in xs;
      var c := Chunk(z, m - 1);
      WithoutIs(xs, c);
      forall x | x in Without(xs, c) ensures exists k: nat :: k < m - 1 && x == Chunk(z, k) {
        var k: nat :| k < m && x == Chunk(z, k);
        assert k != m - 1;
      }
      AtMost(z, m - 1, Without(xs, c));
    }
  }

  /** A zone whose free count is its maximum has nothing given out. */
  lemma {:induction false} AllFree(g: Ground, zp: int, z: Zone, q: nat)
    requires ZoneOk(g, zp, z) && z.nfree == z.nmax && IsChunk(z, q)
    ensures q in z.free
  {
    if q !in z.free {
      var xs := [q] + z.free;
      forall x | x in xs ensures exists k: nat :: k < z.uindex + 1 && x == Chunk(z, k) {
        assert IsChunk(z, x);
        var k: nat :| k <= z.uindex && x == Chunk(z, k);
        assert k < z.uindex + 1;
      }
      AtMost(z, z.uindex + 1, xs);
      assert false;
    }
  }

  // ---- addresses and zones ----

  lemma {:induction false} PageOf(b: nat, n: nat, q: nat)
    requires b * PAGE <= q < (b + n) * PAGE
    ensures b <= q / PAGE < b + n
  {
  }

  /** The descriptor of its page leads from a chunk back to its zone. */
  lemma {:induction false} ChunkZone(s: Slab, zp: int, q: nat)
    requires SlabOk(s) && zp in s.zones && IsChunk(s.zones[zp], q)
    ensures zp >= 0 && In(s.g, zp, q / PAGE) && zp in s.g.zs && ZoneOf(s, q) == zp && q / PAGE !in s.g.large
    ensures q / PAGE in s.g.usage && s.g.usage[q / PAGE].kind == SmallPage
  {
    hide Listed, IsChunk, Has, Canon;
    assert ZoneOk(s.g, zp, s.zones[zp]);
    ChunkInside(s.g, zp, s.zones[zp], q);
    PageOf(zp, s.g.zpages, q);
    Recover(s.g, zp, q);
  }

  /** Live blocks do not overlap. */
  lemma {:induction false} LiveDisjoint(s: Slab, p: nat, q: nat)
    requires SlabOk(s) && Live(s, p) && Live(s, q) && p < q
    ensures p + Bytes(s, p) <= q
  {
    hide Listed, IsChunk, Has, Canon;
    LiveBlock(s, p);
    LiveBlock(s, q);
    var (b, c) := (HomeOf(s, p), HomeOf(s, q));
    if b == c {
      if b in s.zones {
        ChunksApart(s.zones[b], p, q);
      }
    } else if p + Bytes(s, p) > q {
      var x := q / PAGE;
      assert In(s.g, b, x);
      Apart(s.g, b, c, x);
    }
  }

  /** The first page of the zone or large block that holds a live address. */
  function HomeOf(s: Slab, q: nat): int { if q / PAGE in s.g.large then q / PAGE else ZoneOf(s, q) }

  lemma {:induction false} LiveBlock(s: Slab, q: nat)
    requires SlabOk(s) && Live(s, q)
    ensures var b := HomeOf(s, q);
            && b >= 0 && In(s.g, b, q / PAGE) && b * PAGE <= q && q + Bytes(s, q) <= (b + Size(s.g, b)) * PAGE
            && Bytes(s, q) > 0
            && (b in s.zones ==> IsChunk(s.zones[b], q) && Bytes(s, q) == s.zones[b].chunk && s.zones[b].chunk > 0)
            && (b !in s.zones ==> b in s.g.large && q == b * PAGE && Bytes(s, q) == Size(s.g, b) * PAGE)
  {
    hide Listed, IsChunk, Has, Canon;
    if zp :| LiveChunk(s, zp, q) {
      ChunkZone(s, zp, q);
      assert ZoneOk(s.g, zp, s.zones[zp]);
      ChunkInside(s.g, zp, s.zones[zp], q);
    } else {
      assert In(s.g, q / PAGE, q / PAGE);
    }
  }

  lemma {:induction false} ChunksApart(z: Zone, p: nat, q: nat)
    requires IsChunk(z, p) && IsChunk(z, q) && p < q && z.chunk > 0
    ensures p + z.chunk <= q
  {
    var j: nat :| j <= z.uindex && p == Chunk(z, j);
    var k: nat :| k <= z.uindex && q == Chunk(z, k);
    if j < k { ChunkOrder(z, j, k); } else if k < j { ChunkOrder(z, k, j); }
  }

  // ---- a zone gives and takes ----

  /** The zone after giving out a chunk, and the chunk. */
  function Given(z: Zone): (Zone, nat)
    requires z.nfree > 0 && (z.uindex + 1 == z.nmax ==> z.free != [])
  {
    if z.uindex + 1 != z.nmax then (z.(nfree := z.nfree - 1, uindex := z.uindex + 1), Chunk(z, z.uindex + 1))
    else (z.(nfree := z.nfree - 1, free := z.free[1..]), z.free[0])
  }

  /** A chunk of zone `z` that is out. */
  ghost predicate Out(z: Zone, q: nat) { IsChunk(z, q) && q !in z.free }

  lemma {:induction false} GivenOk(g: Ground, zp: int, z: Zone)
    requires ZoneOk(g, zp, z) && z.nfree > 0
    ensures z.uindex + 1 == z.nmax ==> z.free != []
    ensures var (z', q) := Given(z);
            ZoneOk(g, zp, z') && !Out(z, q) && forall x: nat :: Out(z', x) <==> Out(z, x) || x == q
  {
    var (z', q) := Given(z);
    if z.uindex + 1 != z.nmax {
      forall k: nat | k <= z.uindex ensures Chunk(z, k) != q { ChunkOrder(z, k, z.uindex + 1); }
      forall x: nat ensures IsChunk(z', x) <==> IsChunk(z, x) || x == q {
        if IsChunk(z', x) {
          var k: nat :| k <= z'.uindex && x == Chunk(z', k);
          assert Chunk(z, k) == Chunk(z', k);
        }
        if IsChunk(z, x) {
          var k: nat :| k <= z.uindex && x == Chunk(z, k);
          assert Chunk(z, k) == Chunk(z', k);
        }
        if x == q { assert x == Chunk(z', z'.uindex); }
      }
    } else {
      assert q == z.free[0] && q in z.free;
      assert z.free == [q] + z.free[1..];
      assert q !in z.free[1..];
      SameChunks(z, z');
    }
  }

  lemma {:induction false} SameChunks(z: Zone, z': Zone)
    requires z'.base == z.base && z'.chunk == z.chunk && z'.uindex == z.uindex
    ensures forall x: nat :: IsChunk(z', x) <==> IsChunk(z, x)
  {
    assert forall k: nat :: Chunk(z', k) == Chunk(z, k);
  }

  lemma {:induction false} TakenOk(g: Ground, zp: int, z: Zone, q: nat)
    requires ZoneOk(g, zp, z) && Out(z, q)
    ensures var z' := z.(nfree := z.nfree + 1, free := [q] + z.free);
            ZoneOk(g, zp, z') && forall x: nat :: Out(z', x) <==> Out(z, x) && x != q
  {
    SameChunks(z, z.(nfree := z.nfree + 1, free := [q] + z.free));
  }

  /** A new zone: room for at least three chunks, the first one out. */
  lemma {:induction false} NewZoneOk(g: Ground, zp: nat, n: nat)
    requires g.zpages in {8, 16, 32} && 1 <= n < ZoneLimit(g)
    ensures var (zi, size) := ZoneIndex(n);
            && 0 <= zi < NZONES && 0 < size && size == ChunkSize(zi) && FirstOffset(size) + size <= ZoneBytes(g)
            && var z := NewZone(g, zp, zi, size);
               ZoneOk(g, zp, z) && z.nfree > 0 && forall x: nat :: Out(z, x) <==> x == Chunk(z, 0)
  {
    hide PowerOf2, Up;
    ZoneFits(g, n);
    ZoneIndexOk(n);
    var (zi, size) := ZoneIndex(n);
    var (total, off) := (ZoneBytes(g), FirstOffset(size));
    NewZoneHas(total, off, size);
    AtLeast(total - off, size, 3);
    var z := NewZone(g, zp, zi, size);
    assert (zp + g.zpages) * PAGE == zp * PAGE + total;
    assert forall x: nat :: IsChunk(z, x) <==> x == Chunk(z, 0);
  }

  // ---- the lists ----

  /** Zone `zp` changed from having free chunks or not; its own list follows, the others stand. */
  lemma {:induction false} Relisted(s: Slab, s': Slab, zp: nat, zi: nat)
    requires AllListed(s) && zi < NZONES && |s'.lists| == NZONES
    requires forall b | b != zp :: (b in s.zones <==> b in s'.zones) && (b in s.zones ==> s'.zones[b] == s.zones[b])
    requires (zp in s.zones ==> s.zones[zp].zi == zi) && (zp in s'.zones ==> s'.zones[zp].zi == zi)
    requires forall j | 0 <= j < NZONES && j != zi :: s'.lists[j] == s.lists[j]
    requires Distinct(s'.lists[zi]) && forall b: nat | b != zp :: b in s'.lists[zi] <==> b in s.lists[zi]
    requires zp in s'.lists[zi] <==> zp in s'.zones && s'.zones[zp].nfree > 0
    ensures AllListed(s')
  {
    forall j: nat | j < NZONES ensures Listed(s', j) {
      assert Listed(s, j);
      if j == zi { assert Listed(s, zi); }
    }
  }

  /** Live blocks outside zone `zp`. */
  ghost predicate LiveElse(s: Slab, zp: int, q: nat) {
    (exists b :: b != zp && LiveChunk(s, b, q)) || (q % PAGE == 0 && q / PAGE in s.g.large)
  }

  lemma {:induction false} LiveSplit(s: Slab, zp: int, q: nat)
    ensures Live(s, q) <==> (zp in s.zones && Out(s.zones[zp], q)) || LiveElse(s, zp, q)
  {
    hide IsChunk;
    if zp in s.zones && Out(s.zones[zp], q) { assert LiveChunk(s, zp, q); }
    if b :| LiveChunk(s, b, q) { if b != zp { assert LiveElse(s, zp, q); } }
  }

  lemma {:induction false} ElseSame(s: Slab, s': Slab, zp: int, q: nat)
    requires forall b | b != zp :: (b in s.zones <==> b in s'.zones) && (b in s.zones ==> s'.zones[b] == s.zones[b])
    requires s'.g.large == s.g.large
    ensures LiveElse(s, zp, q) <==> LiveElse(s', zp, q)
  {
    hide IsChunk;
    if b :| b != zp && LiveChunk(s, b, q) { assert LiveChunk(s', b, q); }
    if b :| b != zp && LiveChunk(s', b, q) { assert LiveChunk(s, b, q); }
  }

  /** A live address belongs to one zone only. */
  lemma {:induction false} ElseNot(s: Slab, zp: int, q: nat)
    requires SlabOk(s) && zp in s.zones && IsChunk(s.zones[zp], q)
    ensures !LiveElse(s, zp, q)
  {
    hide IsChunk;
    ChunkZone(s, zp, q);
    if b :| b != zp && LiveChunk(s, b, q) { ChunkZone(s, b, q); }
  }

  // ---- rt_malloc ----

  /** The live blocks after are those before and `q`, which was not live. */
  ghost predicate Gains(s: Slab, s': Slab, q: nat) {
    !Live(s, q) && forall x: nat :: Live(s', x) <==> Live(s, x) || x == q
  }

  ghost predicate Loses(s: Slab, s': Slab, q: nat) {
    forall x: nat :: Live(s', x) <==> Live(s, x) && x != q
  }

  lemma {:induction false} ZoneGains(s: Slab, s': Slab, zp: nat, q: nat)
    requires SlabOk(s') && zp in s'.zones && s'.g.large == s.g.large && Out(s'.zones[zp], q)
    requires forall b | b != zp :: (b in s.zones <==> b in s'.zones) && (b in s.zones ==> s'.zones[b] == s.zones[b])
    requires zp in s.zones ==> !Out(s.zones[zp], q)
    requires zp in s.zones ==> forall x: nat :: Out(s'.zones[zp], x) <==> Out(s.zones[zp], x) || x == q
    requires zp !in s.zones ==> forall x: nat :: Out(s'.zones[zp], x) <==> x == q
    ensures Gains(s, s', q)
  {
    hide SlabOk, Live, LiveElse, Out;
    forall x: nat ensures Live(s', x) <==> Live(s, x) || x == q {
      LiveSplit(s, zp, x);
      LiveSplit(s', zp, x);
      ElseSame(s, s', zp, x);
    }
    LiveSplit(s, zp, q);
    ElseSame(s, s', zp, q);
    OutChunk(s'.zones[zp], q);
    ElseNot(s', zp, q);
  }

  lemma {:induction false} OutChunk(z: Zone, q: nat)
    requires Out(z, q)
    ensures IsChunk(z, q)
  {
  }

  lemma {:induction false} ListHead(s: Slab, zi: nat)
    requires AllListed(s) && zi < NZONES && s.lists[zi] != []
    ensures var zp := s.lists[zi][0];
            && zp in s.zones && s.zones[zp].zi == zi && s.zones[zp].nfree > 0 && Distinct(s.lists[zi])
            && Distinct(s.lists[zi][1..])
            && forall b: nat :: b in s.lists[zi][1..] <==> b in s.lists[zi] && b != zp
  {
    assert Listed(s, zi);
    var xs := s.lists[zi];
    assert xs[0] in xs;
    assert xs == [xs[0]] + xs[1..];
    assert xs[0] !in xs[1..];
  }

  lemma {:induction false} ZoneSet(g: Ground, zones: map<int, Zone>, zp: nat, z: Zone)
    requires ZonesOk(g, zones) && ZoneOk(g, zp, z)
    ensures ZonesOk(g, zones[zp as int := z])
  {
  }

  lemma {:induction false} FromZoneOk(s: Slab, zi: nat)
    requires SlabOk(s) && zi < NZONES && s.lists[zi] != []
    ensures s.lists[zi][0] in s.zones
    ensures var z := s.zones[s.lists[zi][0]]; z.nfree > 0 && (z.uindex + 1 == z.nmax ==> z.free != [])
    ensures var (s', q) := FromZone(s, zi);
            && SlabOk(s') && s'.g == s.g && Gains(s, s', q)
            && ZoneOf(s', q) in s'.zones && s'.zones[ZoneOf(s', q)].zi == zi && q / PAGE !in s'.g.large
  {
    hide GroundOk, Listed, IsChunk, Distinct, Out, Gains, Chunk;
    ListHead(s, zi);
    var zp := s.lists[zi][0];
    var z := s.zones[zp];
    assert ZoneOk(s.g, zp, z);
    GivenOk(s.g, zp, z);
    var (s', q) := FromZone(s, zi);
    var z' := Given(z).0;
    assert q == Given(z).1 && s'.zones == s.zones[zp as int := z'];
    ZoneSet(s.g, s.zones, zp, z');
    ListedIs(s, zi);
    Relisted(s, s', zp, zi);
    assert SpareOk(s');
    ZoneGains(s, s', zp, q);
    OutChunk(z', q);
    ChunkZone(s', zp, q);
  }

  lemma {:induction false} ListedIs(s: Slab, zi: nat)
    requires AllListed(s) && zi < NZONES
    ensures Distinct(s.lists[zi])
    ensures forall zp: nat :: zp in s.lists[zi] <==> zp in s.zones && s.zones[zp].zi == zi && s.zones[zp].nfree > 0
  {
    assert Listed(s, zi);
  }

  /** Zone `zp` is set aside: neither in service nor spare. */
  ghost predicate Aside(s: Slab, zp: nat) {
    && GroundOk(s.g) && ZonesOk(s.g, s.zones) && AllListed(s)
    && zp in s.g.zs && zp !in s.zones && zp !in s.spare && Distinct(s.spare) && s.cnt == |s.spare| <= THRESHOLD
    && (forall b :: b in s.g.zs <==> b in s.zones || b in s.spare || b == zp)
    && (forall b | b in s.spare :: b !in s.zones)
  }

  lemma {:induction false} InstallOk(s: Slab, zp: nat, n: nat)
    requires Aside(s, zp) && 1 <= n < ZoneLimit(s.g)
    ensures var (zi, size) := ZoneIndex(n);
            && 0 <= zi < NZONES && 0 < ChunkSize(zi) && FirstOffset(ChunkSize(zi)) + ChunkSize(zi) <= ZoneBytes(s.g)
            && var (s', q) := Install(s, zp, zi);
               && SlabOk(s') && s'.g == s.g && Gains(s, s', q)
               && ZoneOf(s', q) in s'.zones && s'.zones[ZoneOf(s', q)].zi == zi && q / PAGE !in s'.g.large
  {
    hide Listed, IsChunk, Distinct, Out, Gains, Chunk, ZoneIndex, ChunkSize, FirstOffset, OwnOk, UsageOk, Canon,
         NewZone, ZoneLimit;
    var (zi, size) := ZoneIndex(n);
    NewZoneOk(s.g, zp, n);
    var (s', q) := Install(s, zp, zi);
    var z := NewZone(s.g, zp, zi, size);
    NewZoneIs(s.g, zp, zi, size);
    ZoneSet(s.g, s.zones, zp, z);
    ListedIs(s, zi);
    DistinctFront(s.lists[zi], zp);
    Relisted(s, s', zp, zi);
    ZoneGains(s, s', zp, q);
    OutChunk(z, q);
    ChunkZone(s', zp, q);
  }

  lemma {:induction false} NewZoneIs(g: Ground, zp: nat, zi: nat, size: nat)
    requires 0 < size && FirstOffset(size) + size <= ZoneBytes(g)
    ensures NewZone(g, zp, zi, size).zi == zi
  {
  }

  lemma {:induction false} DistinctFront(xs: seq<nat>, x: nat)
    requires Distinct(xs) && x !in xs
    ensures Distinct([x] + xs)
  {
  }

  lemma {:induction false} SpareAside(s: Slab)
    requires SlabOk(s) && s.spare != []
    ensures Aside(s.(spare := s.spare[1..], cnt := s.cnt - 1), s.spare[0])
  {
    hide Listed, GroundOk, ZoneOk;
    var (zp, rest) := (s.spare[0], s.spare[1..]);
    assert s.spare == [zp] + rest;
    assert zp in s.spare && zp !in rest;
    forall b ensures b in s.spare <==> b in rest || b == zp { }
    SameLists(s, s.(spare := rest, cnt := s.cnt - 1));
  }

  lemma {:induction false} SameLists(s: Slab, s': Slab)
    requires AllListed(s) && s'.lists == s.lists && s'.zones == s.zones
    ensures AllListed(s')
  {
    forall zi: nat | zi < NZONES ensures Listed(s', zi) { assert Listed(s, zi); }
  }

  lemma {:induction false} SameZones(g: Ground, g': Ground, zones: map<int, Zone>)
    requires ZonesOk(g, zones) && g'.zpages == g.zpages
    ensures ZonesOk(g', zones)
  {
    forall zp | zp in zones ensures ZoneOk(g', zp, zones[zp]) { assert ZoneOk(g, zp, zones[zp]); }
  }

  lemma {:induction false} FreshAside(s: Slab)
    requires SlabOk(s) && TakeZone(s.g).1.Some?
    ensures Aside(s.(g := TakeZone(s.g).0), TakeZone(s.g).1.value) && TakeZone(s.g).0.large == s.g.large
  {
    hide Listed, GroundOk, ZoneOk, Alloc, Describe, Claim;
    var (g, r) := TakeZone(s.g);
    TakeZoneOk(s.g);
    SameZones(s.g, g, s.zones);
    SameLists(s, s.(g := g));
    assert r.value !in s.zones && r.value !in s.spare;
  }

  lemma {:induction false} SameGains(s0: Slab, s: Slab, s': Slab, q: nat)
    requires Gains(s, s', q) && s0.zones == s.zones && s0.g.large == s.g.large
    ensures Gains(s0, s', q)
  {
    hide IsChunk;
    forall x: nat ensures Live(s0, x) <==> Live(s, x) {
      if zp :| LiveChunk(s, zp, x) { assert LiveChunk(s0, zp, x); }
      if zp :| LiveChunk(s0, zp, x) { assert LiveChunk(s, zp, x); }
    }
  }

  lemma {:induction false} LargeOk(s: Slab, k: nat)
    requires SlabOk(s) && k > 0 && TakeLarge(s.g, k).1.Some?
    ensures var (g, r) := TakeLarge(s.g, k); var s' := s.(g := g);
            SlabOk(s') && Gains(s, s', r.value * PAGE) && r.value in g.large && g.large[r.value] == k
  {
    hide Listed, GroundOk, ZoneOk, Alloc, Claim, IsChunk;
    var (g, r) := TakeLarge(s.g, k);
    var (s', q) := (s.(g := g), r.value * PAGE);
    TakeLargeOk(s.g, k);
    SameZones(s.g, g, s.zones);
    SameLists(s, s');
    assert q / PAGE == r.value;
    forall x: nat ensures Live(s', x) <==> Live(s, x) || x == q {
      if zp :| LiveChunk(s, zp, x) { assert LiveChunk(s', zp, x); }
      if zp :| LiveChunk(s', zp, x) { assert LiveChunk(s, zp, x); }
    }
    if zp :| LiveChunk(s, zp, q) {
      assert LiveChunk(s', zp, q);
      ChunkZone(s', zp, q);
      assert false;
    }
  }

  /** rt_malloc keeps the invariant.  It gives out one block that was not live, with at least the bytes
      asked for, and leaves every other block where it is, with the bytes it had; it fails without changing anything. */
  lemma {:induction false} MallocOk(s: Slab, n: nat)
    requires SlabOk(s)
    ensures var (s', r) := Malloc(s, n);
            && SlabOk(s') && (r.None? ==> s' == s)
            && (r.Some? ==> Gains(s, s', r.value) && SameBytes(s, s', r.value) && Bytes(s', r.value) >= n && n > 0)
            && (r.Some? ==> Bytes(s', r.value) == if n < ZoneLimit(s.g) then ZoneIndex(n).1 else Up(n, PAGE))
  {
    hide Listed, GroundOk, IsChunk, Gains, FromZone, Install, TakeZone, TakeLarge, ZoneIndex, ChunkSize, FirstOffset;
    var (s', r) := Malloc(s, n);
    if n == 0 {
    } else if n >= ZoneLimit(s.g) {
      var k := (n + PAGE - 1) / PAGE;
      if r.Some? {
        LargeOk(s, k);
        assert r.value / PAGE == TakeLarge(s.g, k).1.value;
      }
    } else {
      GroundPages(s.g);
      ZoneFits(s.g, n);
      ZoneIndexOk(n);
      var zi := ZoneIndex(n).0;
      if s.lists[zi] != [] {
        FromZoneOk(s, zi);
      } else if s.spare != [] {
        SpareAside(s);
        var s0 := s.(spare := s.spare[1..], cnt := s.cnt - 1);
        InstallOk(s0, s.spare[0], n);
        SameGains(s, s0, s', r.value);
      } else if r.Some? {
        FreshAside(s);
        var s0 := s.(g := TakeZone(s.g).0);
        TakeZoneBytes(s.g);
        InstallOk(s0, TakeZone(s.g).1.value, n);
        SameGains(s, s0, s', r.value);
      }
      if r.Some? { BytesOf(s', r.value); }
    }
    if r.Some? { MallocSame(s, n, r.value); }
  }

  // ---- the blocks an operation does not name ----

  /** The zone has not moved and its chunks are the same, perhaps more of them in use. */
  ghost predicate Grown(z: Zone, z': Zone) { z'.base == z.base && z'.chunk == z.chunk && z.uindex <= z'.uindex }

  /** A block at `x` is of the same kind and in the same place after. */
  ghost predicate Stays(s: Slab, s': Slab, x: nat) {
    && (forall b | LiveChunk(s, b, x) :: b in s'.zones && Grown(s.zones[b], s'.zones[b]))
    && (x % PAGE == 0 && x / PAGE in s.g.large ==>
       x / PAGE in s'.g.large && s'.g.large[x / PAGE] == s.g.large[x / PAGE])
  }

  /** Every live block but `q` keeps the bytes it was given. */
  ghost predicate SameBytes(s: Slab, s': Slab, q: nat) {
    forall x: nat | Live(s, x) && x != q :: Bytes(s', x) == Bytes(s, x)
  }

  lemma {:induction false} StaysBytes(s: Slab, s': Slab, x: nat)
    requires SlabOk(s) && SlabOk(s') && Live(s, x) && Stays(s, s', x)
    ensures Bytes(s', x) == Bytes(s, x)
  {
    hide SlabOk, IsChunk, ZoneOf;
    if b :| LiveChunk(s, b, x) {
      ChunkZone(s, b, x);
      GrownChunk(s.zones[b], s'.zones[b], x);
      ChunkZone(s', b, x);
    }
  }

  lemma {:induction false} GrownChunk(z: Zone, z': Zone, q: nat)
    requires IsChunk(z, q) && Grown(z, z')
    ensures IsChunk(z', q)
  {
    var k: nat :| k <= z.uindex && q == Chunk(z, k);
    assert q == Chunk(z', k);
  }

  lemma {:induction false} ZonesInUse(s: Slab)
    requires SlabOk(s)
    ensures forall b | b in s.zones :: b in s.g.zs && b !in s.spare
  {
    hide GroundOk, ZonesOk, AllListed;
  }

  lemma {:induction false} MallocStays(s: Slab, n: nat, x: nat)
    requires SlabOk(s)
    ensures Stays(s, Malloc(s, n).0, x)
  {
    hide Listed, GroundOk, IsChunk, ZoneIndex, ChunkSize, FirstOffset, NewZone, Alloc, Claim, Describe, ZonesOk,
         Distinct;
    ZonesInUse(s);
    if n >= ZoneLimit(s.g) && n > 0 {
      TakeLargeOk(s.g, (n + PAGE - 1) / PAGE);
    } else {
      TakeZoneOk(s.g);
    }
  }

  lemma {:induction false} MallocSame(s: Slab, n: nat, q: nat)
    requires SlabOk(s) && SlabOk(Malloc(s, n).0)
    ensures SameBytes(s, Malloc(s, n).0, q)
  {
    hide SlabOk, Malloc, Live, Bytes, Stays;
    var s' := Malloc(s, n).0;
    forall x: nat | Live(s, x) && x != q ensures Bytes(s', x) == Bytes(s, x) {
      MallocStays(s, n, x);
      StaysBytes(s, s', x);
    }
  }

  lemma {:induction false} PutBackSame(s: Slab, zp: nat, q: nat)
    requires SlabOk(s) && zp in s.zones && s.zones[zp].zi < |s.lists| && SlabOk(PutBack(s, zp, q))
    ensures SameBytes(s, PutBack(s, zp, q), q)
  {
    hide SlabOk, Live, Bytes, IsChunk;
    var s' := PutBack(s, zp, q);
    forall x: nat | Live(s, x) && x != q ensures Bytes(s', x) == Bytes(s, x) { StaysBytes(s, s', x); }
  }

  lemma {:induction false} RetireSame(s: Slab, zp: nat, q: nat)
    requires SlabOk(s) && zp in s.zones && s.zones[zp].zi < |s.lists| && s.zones[zp].nfree == s.zones[zp].nmax
    requires SlabOk(Retire(s, zp))
    ensures SameBytes(s, Retire(s, zp), q)
  {
    hide SlabOk, Live, Bytes, IsChunk, ZoneOk, Without, Free, Disclaim, Erase;
    var s' := Retire(s, zp);
    assert ZoneOk(s.g, zp, s.zones[zp]) by { ZoneIs(s, zp); }
    forall x: nat | Live(s, x) && x != q ensures Bytes(s', x) == Bytes(s, x) {
      if LiveChunk(s, zp, x) { AllFree(s.g, zp, s.zones[zp], x); }
      StaysBytes(s, s', x);
    }
  }

  lemma {:induction false} ZoneIs(s: Slab, zp: nat)
    requires SlabOk(s) && zp in s.zones
    ensures ZoneOk(s.g, zp, s.zones[zp])
  {
    hide GroundOk, AllListed, SpareOk;
  }

  lemma {:induction false} GiveLargeSame(s: Slab, q: nat)
    requires SlabOk(s) && q % PAGE == 0 && q / PAGE in s.g.large && SlabOk(s.(g := GiveLarge(s.g, q / PAGE)))
    ensures SameBytes(s, s.(g := GiveLarge(s.g, q / PAGE)), q)
  {
    hide SlabOk, Live, Bytes, IsChunk, Free, Disclaim;
    var s' := s.(g := GiveLarge(s.g, q / PAGE));
    forall x: nat | Live(s, x) && x != q ensures Bytes(s', x) == Bytes(s, x) { StaysBytes(s, s', x); }
  }

  lemma {:induction false} GroundPages(g: Ground)
    requires GroundOk(g)
    ensures g.zpages in {8, 16, 32}
  {
  }

  lemma {:induction false} TakeZoneBytes(g: Ground)
    ensures TakeZone(g).0.zpages == g.zpages
  {
  }

  lemma {:induction false} BytesOf(s: Slab, q: nat)
    requires SlabOk(s) && ZoneOf(s, q) in s.zones && q / PAGE !in s.g.large
    ensures Bytes(s, q) == ChunkSize(s.zones[ZoneOf(s, q)].zi)
  {
    assert ZoneOk(s.g, ZoneOf(s, q), s.zones[ZoneOf(s, q)]);
  }

  /** rt_malloc fails exactly on a zero request or when the pages it needs are not there in one run. */
  lemma {:induction false} MallocFails(s: Slab, n: nat)
    requires SlabOk(s)
    ensures Malloc(s, n).1.None? <==>
            || n == 0
            || (n >= ZoneLimit(s.g) && forall i | 0 <= i < |s.g.pages| :: s.g.pages[i].len < (n + PAGE - 1) / PAGE)
            || (0 < n < ZoneLimit(s.g) && 0 <= ZoneIndex(n).0 < NZONES && s.lists[ZoneIndex(n).0] == [] && s.spare == []
                && forall i | 0 <= i < |s.g.pages| :: s.g.pages[i].len < s.g.zpages)
  {
    hide Listed, IsChunk, FromZone, Install, ZoneIndex, ChunkSize, FirstOffset, OwnOk, UsageOk, Alloc;
    if 0 < n < ZoneLimit(s.g) {
      ZoneFits(s.g, n);
      ZoneIndexOk(n);
      AllocSound(s.g.pages, s.g.lo, s.g.zpages);
    } else if n > 0 {
      AllocSound(s.g.pages, s.g.lo, (n + PAGE - 1) / PAGE);
    }
  }

  // ---- rt_free ----

  lemma {:induction false} PutBackOk(s: Slab, zp: nat, q: nat)
    requires SlabOk(s) && zp in s.zones && Out(s.zones[zp], q)
    ensures s.zones[zp].zi < |s.lists|
    ensures var s' := PutBack(s, zp, q);
            SlabOk(s') && Loses(s, s', q) && s'.zones.Keys == s.zones.Keys && s'.g == s.g && s'.zones[zp].nfree > 0
  {
    hide Listed, GroundOk, IsChunk, Distinct, Out, Loses;
    var z := s.zones[zp];
    assert ZoneOk(s.g, zp, z);
    TakenOk(s.g, zp, z, q);
    var s' := PutBack(s, zp, q);
    ZoneSet(s.g, s.zones, zp, s'.zones[zp]);
    ListedIs(s, z.zi);
    if z.nfree == 0 { DistinctFront(s.lists[z.zi], zp); }
    Relisted(s, s', zp, z.zi);
    ZoneLoses(s, s', zp, q);
  }

  lemma {:induction false} ZoneLoses(s: Slab, s': Slab, zp: nat, q: nat)
    requires SlabOk(s) && zp in s.zones && s'.g.large == s.g.large && Out(s.zones[zp], q) && zp in s'.zones
    requires forall b | b != zp :: (b in s.zones <==> b in s'.zones) && (b in s.zones ==> s'.zones[b] == s.zones[b])
    requires forall x: nat :: Out(s'.zones[zp], x) <==> Out(s.zones[zp], x) && x != q
    ensures Loses(s, s', q)
  {
    hide SlabOk, Live, LiveElse, Out;
    OutChunk(s.zones[zp], q);
    ElseNot(s, zp, q);
    forall x: nat ensures Live(s', x) <==> Live(s, x) && x != q {
      LiveSplit(s, zp, x);
      LiveSplit(s', zp, x);
      ElseSame(s, s', zp, x);
    }
  }

  lemma {:induction false} RetireLists(s: Slab, zp: nat)
    requires SlabOk(s) && zp in s.zones
    ensures s.zones[zp].zi < |s.lists| && AllListed(Retire(s, zp))
  {
    hide GroundOk, IsChunk, Distinct, GiveZone, Without, SpareOk, Listed;
    assert ZoneOk(s.g, zp, s.zones[zp]);
    var zi := s.zones[zp].zi;
    ListedIs(s, zi);
    WithoutIs(s.lists[zi], zp);
    Relisted(s, Retire(s, zp), zp, zi);
  }

  lemma {:induction false} RetireSpare(s: Slab, zp: nat)
    requires SlabOk(s) && zp in s.zones && s.zones[zp].zi < |s.lists|
    ensures SpareOk(Retire(s, zp))
  {
    hide GroundOk, IsChunk, Without, AllListed, ZonesOk, Disclaim, Erase, Free;
    if s.cnt + 1 <= THRESHOLD { DistinctFront(s.spare, zp); }
  }

  /** Retiring an all free zone changes nothing that is live, and keeps at most two spare zones. */
  lemma {:induction false} RetireOk(s: Slab, zp: nat)
    requires SlabOk(s) && zp in s.zones && s.zones[zp].nfree == s.zones[zp].nmax
    ensures s.zones[zp].zi < |s.lists|
    ensures SlabOk(Retire(s, zp)) && forall x: nat :: Live(Retire(s, zp), x) <==> Live(s, x)
  {
    hide Listed, IsChunk, Distinct, Without, Live, LiveElse, OwnOk, UsageOk, Canon, AllListed, Disclaim, Erase, Free;
    assert ZoneOk(s.g, zp, s.zones[zp]);
    RetireLists(s, zp);
    RetireSpare(s, zp);
    var s' := Retire(s, zp);
    Bounds(s.g, zp);
    GiveZoneOk(s.g, zp);
    SameZones(s.g, s'.g, s.zones);
    ZonesLess(s'.g, s.zones, s'.zones);
    forall x: nat ensures Live(s', x) <==> Live(s, x) {
      LiveSplit(s, zp, x);
      LiveSplit(s', zp, x);
      ElseSame(s, s', zp, x);
      if IsChunk(s.zones[zp], x) { AllFree(s.g, zp, s.zones[zp], x); }
    }
  }

  lemma {:induction false} ZonesLess(g: Ground, zones: map<int, Zone>, zones': map<int, Zone>)
    requires ZonesOk(g, zones) && forall b | b in zones' :: b in zones && zones'[b] == zones[b]
    ensures ZonesOk(g, zones')
  {
  }

  /** What rt_free finds behind a live address. */
  lemma {:induction false} LiveKind(s: Slab, q: nat)
    requires SlabOk(s) && Live(s, q)
    ensures q / PAGE in s.g.usage
    ensures s.g.usage[q / PAGE].kind == LargePage ==> q % PAGE == 0 && q / PAGE in s.g.large
    ensures s.g.usage[q / PAGE].kind != LargePage ==>
              ZoneOf(s, q) >= 0 && ZoneOf(s, q) in s.zones && Out(s.zones[ZoneOf(s, q)], q)
                  && s.zones[ZoneOf(s, q)].zi < |s.lists|
  {
    hide Listed, IsChunk, Has, Canon;
    if zp :| LiveChunk(s, zp, q) {
      ChunkZone(s, zp, q);
      assert ZoneOk(s.g, zp, s.zones[zp]);
    }
  }

  function FreeBlock(s: Slab, q: nat): Slab
    requires SlabOk(s) && Live(s, q)
  {
    LiveKind(s, q);
    if s.g.usage[q / PAGE].kind == LargePage then s.(g := GiveLarge(s.g, q / PAGE)) else FreeChunk(s, ZoneOf(s, q), q)
  }

  lemma {:induction false} FreeLargeOk(s: Slab, q: nat)
    requires SlabOk(s) && q % PAGE == 0 && q / PAGE in s.g.large
    ensures var s' := s.(g := GiveLarge(s.g, q / PAGE)); SlabOk(s') && Loses(s, s', q)
  {
    hide Listed, GroundOk, ZoneOk, IsChunk, Disclaim, Free;
    var s' := s.(g := GiveLarge(s.g, q / PAGE));
    GiveLargeOk(s.g, q / PAGE);
    SameZones(s.g, s'.g, s.zones);
    SameLists(s, s');
    forall x: nat ensures Live(s', x) <==> Live(s, x) && x != q {
      if zp :| LiveChunk(s, zp, x) {
        assert LiveChunk(s', zp, x);
        ChunkZone(s, zp, x);
      }
      if zp :| LiveChunk(s', zp, x) { assert LiveChunk(s, zp, x); ChunkZone(s, zp, x); }
    }
  }

  /** rt_free keeps the invariant; the freed block is the only one no longer live, and the others keep
      their bytes. */
  lemma {:induction false} FreeOk(s: Slab, q: nat)
    requires SlabOk(s) && Live(s, q)
    ensures SlabOk(FreeBlock(s, q)) && Loses(s, FreeBlock(s, q), q) && SameBytes(s, FreeBlock(s, q), q)
  {
    hide SlabOk, Live, Bytes, GiveLarge, PutBack, Retire, Out;
    LiveKind(s, q);
    if s.g.usage[q / PAGE].kind == LargePage {
      FreeLargeOk(s, q);
      GiveLargeSame(s, q);
    } else {
      var zp := ZoneOf(s, q);
      PutBackOk(s, zp, q);
      var s1 := PutBack(s, zp, q);
      PutBackSame(s, zp, q);
      if s1.zones[zp].nfree == s1.zones[zp].nmax {
        RetireOk(s1, zp);
        RetireSame(s1, zp, q);
      }
    }
  }

  // ---- room is not wasted ----

  /** Every zone begins right behind its header, aligned, and has as many chunks as fit. */
  ghost predicate PackedZone(g: Ground, zp: int, z: Zone) {
    && z.chunk > 0 && z.base == zp * PAGE + FirstOffset(z.chunk)
    && z.base + z.nmax * z.chunk <= (zp + g.zpages) * PAGE < z.base + (z.nmax + 1) * z.chunk
  }

  ghost predicate Packed(s: Slab) { forall zp | zp in s.zones :: PackedZone(s.g, zp, s.zones[zp]) }

  /** Nothing of the zone is given out. */
  ghost predicate Idle(s: Slab, zp: int) { zp in s.zones && s.zones[zp].nfree == s.zones[zp].nmax }

  /** Of each size at most one zone in service has nothing given out. */
  ghost predicate OneIdle(s: Slab) {
    forall zp, zr | Idle(s, zp) && Idle(s, zr) && s.zones[zp].zi == s.zones[zr].zi :: zp == zr
  }

  ghost predicate Frugal(s: Slab) { SlabOk(s) && Packed(s) && OneIdle(s) }

  lemma {:induction false} NewZonePacked(g: Ground, zp: nat, zi: nat, size: nat)
    requires 0 < size && FirstOffset(size) + size <= ZoneBytes(g)
    ensures var z := NewZone(g, zp, zi, size); PackedZone(g, zp, z) && z.nfree == z.nmax - 1 && z.nmax > 0
  {
    hide FirstOffset;
    var (room, z) := (ZoneBytes(g) - FirstOffset(size), NewZone(g, zp, zi, size));
    NewZoneHas(ZoneBytes(g), FirstOffset(size), size);
    assert room == room / size * size + room % size;
    assert (z.nmax + 1) * size == z.nmax * size + size;
    assert (zp + g.zpages) * PAGE == zp * PAGE + ZoneBytes(g);
  }

  /** Only zone `zp` is another, and it is packed and not idle. */
  lemma {:induction false} OneZoneFrugal(s: Slab, s': Slab, zp: nat)
    requires Packed(s) && OneIdle(s) && s'.g.zpages == s.g.zpages && zp in s'.zones && !Idle(s', zp)
    requires forall b | b in s'.zones && b != zp :: b in s.zones && s'.zones[b] == s.zones[b]
    requires PackedZone(s'.g, zp, s'.zones[zp])
    ensures Packed(s') && OneIdle(s')
  {
    hide FirstOffset;
    forall b | b in s'.zones ensures PackedZone(s'.g, b, s'.zones[b]) {
      if b != zp { assert PackedZone(s.g, b, s.zones[b]); }
    }
    forall a, b | Idle(s', a) && Idle(s', b) && s'.zones[a].zi == s'.zones[b].zi ensures a == b {
      assert Idle(s, a) && Idle(s, b);
    }
  }

  lemma {:induction false} FreeBounded(g: Ground, zp: int, z: Zone)
    requires ZoneOk(g, zp, z)
    ensures z.nfree <= z.nmax
  {
    hide ChunkSize, Distinct;
    forall x | x in z.free ensures exists k: nat :: k < z.uindex + 1 && x == Chunk(z, k) {
      assert IsChunk(z, x);
      var k: nat :| k <= z.uindex && x == Chunk(z, k);
      assert k < z.uindex + 1;
    }
    AtMost(z, z.uindex + 1, z.free);
  }

  lemma {:induction false} FromZoneFrugal(s: Slab, zi: nat)
    requires Frugal(s) && zi < NZONES && s.lists[zi] != []
    ensures s.lists[zi][0] in s.zones
    ensures var z := s.zones[s.lists[zi][0]]; z.nfree > 0 && (z.uindex + 1 == z.nmax ==> z.free != [])
    ensures var s' := FromZone(s, zi).0; Packed(s') && OneIdle(s')
  {
    hide GroundOk, Listed, IsChunk, Distinct, Chunk, FirstOffset, ChunkSize;
    FromZoneOk(s, zi);
    var zp := s.lists[zi][0];
    assert PackedZone(s.g, zp, s.zones[zp]) && ZoneOk(s.g, zp, s.zones[zp]);
    FreeBounded(s.g, zp, s.zones[zp]);
    OneZoneFrugal(s, FromZone(s, zi).0, zp);
  }

  lemma {:induction false} InstallFrugal(s: Slab, zp: nat, zi: nat)
    requires Packed(s) && OneIdle(s) && zi < |s.lists| && 0 < ChunkSize(zi)
    requires FirstOffset(ChunkSize(zi)) + ChunkSize(zi) <= ZoneBytes(s.g)
    ensures var s' := Install(s, zp, zi).0; Packed(s') && OneIdle(s')
  {
    hide FirstOffset, ChunkSize, NewZone;
    NewZonePacked(s.g, zp, zi, ChunkSize(zi));
    OneZoneFrugal(s, Install(s, zp, zi).0, zp);
  }

  lemma {:induction false} SameFrugal(s: Slab, s': Slab)
    requires Packed(s) && OneIdle(s) && s'.zones == s.zones && s'.g.zpages == s.g.zpages
    ensures Packed(s') && OneIdle(s')
  {
    hide FirstOffset;
    forall b | b in s'.zones ensures PackedZone(s'.g, b, s'.zones[b]) { assert PackedZone(s.g, b, s.zones[b]); }
    forall a, b | Idle(s', a) && Idle(s', b) && s'.zones[a].zi == s'.zones[b].zi ensures a == b {
      assert Idle(s, a) && Idle(s, b);
    }
  }

  lemma {:induction false} MallocFrugal(s: Slab, n: nat)
    requires Frugal(s)
    ensures Frugal(Malloc(s, n).0)
  {
    hide Listed, GroundOk, IsChunk, FromZone, Install, ZoneIndex, ChunkSize, FirstOffset, Packed, OneIdle, Alloc, Claim,
         Describe;
    MallocOk(s, n);
    if n >= ZoneLimit(s.g) && n > 0 {
      SameFrugal(s, Malloc(s, n).0);
    } else if n > 0 {
      GroundPages(s.g);
      ZoneFits(s.g, n);
      ZoneIndexOk(n);
      var zi := ZoneIndex(n).0;
      if s.lists[zi] != [] {
        FromZoneFrugal(s, zi);
      } else if s.spare != [] {
        var s0 := s.(spare := s.spare[1..], cnt := s.cnt - 1);
        SameFrugal(s, s0);
        InstallFrugal(s0, s.spare[0], zi);
      } else if TakeZone(s.g).1.Some? {
        var s0 := s.(g := TakeZone(s.g).0);
        SameFrugal(s, s0);
        InstallFrugal(s0, TakeZone(s.g).1.value, zi);
      }
    }
  }

  /** A zone that is alone on its list: no other of its size has a free chunk. */
  lemma {:induction false} AloneIs(s: Slab, zp: nat)
    requires SlabOk(s) && zp in s.zones && s.zones[zp].zi < |s.lists| && s.zones[zp].nfree > 0
    requires !NotAlone(s.lists[s.zones[zp].zi], zp)
    ensures forall b | b in s.zones && b != zp && s.zones[b].zi == s.zones[zp].zi :: s.zones[b].nfree == 0
  {
    hide GroundOk, IsChunk, SpareOk;
    var (zi, l) := (s.zones[zp].zi, s.lists[s.zones[zp].zi]);
    ListedIs(s, zi);
    assert zp in l && |l| == 1;
    forall b | b in s.zones && b != zp && s.zones[b].zi == zi ensures s.zones[b].nfree == 0 {
      assert ZoneOk(s.g, b, s.zones[b]);
      assert s.zones[b].nfree > 0 ==> b in l;
    }
  }

  /** A zone leaves service exactly when nothing of it is given out any more and another zone of its size has a
      free chunk. */
  lemma {:induction false} RetiresExactly(s: Slab, zp: nat, q: nat)
    requires SlabOk(s) && zp in s.zones && Out(s.zones[zp], q)
    ensures s.zones[zp].zi < |s.lists|
    ensures zp !in FreeChunk(s, zp, q).zones <==>
            && s.zones[zp].nfree + 1 == s.zones[zp].nmax
            && exists b :: b in s.zones && b != zp && s.zones[b].zi == s.zones[zp].zi && s.zones[b].nfree > 0
  {
    hide GroundOk, IsChunk, SpareOk, Out, Without, Free, Disclaim, Erase, SlabOk, Listed;
    PutBackOk(s, zp, q);
    var s1 := PutBack(s, zp, q);
    ZonesSized(s1);
    var (zi, l) := (s1.zones[zp].zi, s1.lists[s1.zones[zp].zi]);
    if s1.zones[zp].nfree == s1.zones[zp].nmax {
      if NotAlone(l, zp) {
        var b := OtherListed(s1, zp);
        assert b in s.zones && b != zp;
      } else {
        AloneIs(s1, zp);
        assert forall b | b in s.zones && b != zp :: s1.zones[b] == s.zones[b];
      }
    }
  }

  lemma {:induction false} OtherListed(s: Slab, zp: nat) returns (b: nat)
    requires SlabOk(s) && zp in s.zones && s.zones[zp].zi < |s.lists| && NotAlone(s.lists[s.zones[zp].zi], zp)
    ensures b in s.zones && b != zp && s.zones[b].zi == s.zones[zp].zi && s.zones[b].nfree > 0
  {
    hide GroundOk, IsChunk, SpareOk, ZonesOk;
    var (zi, l) := (s.zones[zp].zi, s.lists[s.zones[zp].zi]);
    ListedIs(s, zi);
    b := if l[0] != zp then l[0] else l[|l| - 1];
    assert b in l;
  }

  /** Which chunk of a zone is given out: the next one that never was, while there is one; then the one freed
      last. */
  lemma {:induction false} ChunkChoice(s: Slab, zi: nat)
    requires SlabOk(s) && zi < NZONES && s.lists[zi] != []
    ensures s.lists[zi][0] in s.zones
    ensures var z := s.zones[s.lists[zi][0]];
            && z.nfree > 0 && (z.uindex + 1 == z.nmax ==> z.free != [])
            && var (s', q) := FromZone(s, zi);
               && (z.uindex + 1 < z.nmax ==>
                  !IsChunk(z, q) && IsChunk(s'.zones[s.lists[zi][0]], q) && q > Chunk(z, z.uindex))
               && (z.uindex + 1 == z.nmax ==> z.free == [q] + s'.zones[s.lists[zi][0]].free)
  {
    hide GroundOk, Listed, Distinct, Gains, ZonesOk;
    FromZoneOk(s, zi);
    var (zp, z) := (s.lists[zi][0], s.zones[s.lists[zi][0]]);
    ZoneIs(s, zp);
    var (s', q) := FromZone(s, zi);
    if z.uindex + 1 < z.nmax {
      forall k: nat | k <= z.uindex ensures Chunk(z, k) < q { ChunkOrder(z, k, z.uindex + 1); }
      assert q == Chunk(s'.zones[zp], z.uindex + 1);
    }
  }

  lemma {:induction false} PutBackFrugal(s: Slab, zp: nat, q: nat)
    requires Frugal(s) && zp in s.zones && Out(s.zones[zp], q) && s.zones[zp].zi < |s.lists|
    ensures Packed(PutBack(s, zp, q)) && forall b | b != zp && Idle(PutBack(s, zp, q), b) :: Idle(s, b)
  {
    hide FirstOffset, SlabOk, Out;
    var s' := PutBack(s, zp, q);
    forall b | b in s'.zones ensures PackedZone(s'.g, b, s'.zones[b]) { assert PackedZone(s.g, b, s.zones[b]); }
  }

  lemma {:induction false} FreeChunkFrugal(s: Slab, zp: nat, q: nat)
    requires Frugal(s) && zp in s.zones && Out(s.zones[zp], q) && s.zones[zp].zi < |s.lists|
    ensures Packed(FreeChunk(s, zp, q)) && OneIdle(FreeChunk(s, zp, q))
  {
    hide FirstOffset, Out, GroundOk, Listed, IsChunk, Without, Free, Disclaim, Erase, Distinct, SlabOk;
    PutBackOk(s, zp, q);
    PutBackFrugal(s, zp, q);
    var (s1, s') := (PutBack(s, zp, q), FreeChunk(s, zp, q));
    ZonesSized(s1);
    forall b | b in s'.zones ensures PackedZone(s'.g, b, s'.zones[b]) { assert PackedZone(s1.g, b, s1.zones[b]); }
    if Idle(s1, zp) && !NotAlone(s1.lists[s1.zones[zp].zi], zp) { AloneIs(s1, zp); }
    forall a, b | Idle(s', a) && Idle(s', b) && s'.zones[a].zi == s'.zones[b].zi ensures a == b {
      assert Idle(s1, a) && Idle(s1, b);
      assert a != zp ==> Idle(s, a);
      assert b != zp ==> Idle(s, b);
    }
  }

  lemma {:induction false} ZonesSized(s: Slab)
    requires SlabOk(s)
    ensures forall b | b in s.zones :: s.zones[b].nmax >= 3 && s.zones[b].zi < |s.lists|
  {
    hide GroundOk, Listed, IsChunk, SpareOk;
    forall b | b in s.zones ensures s.zones[b].nmax >= 3 && s.zones[b].zi < |s.lists| {
      assert ZoneOk(s.g, b, s.zones[b]);
    }
  }

  lemma {:induction false} FreeFrugal(s: Slab, q: nat)
    requires Frugal(s) && Live(s, q)
    ensures Frugal(FreeBlock(s, q))
  {
    hide SlabOk, Live, Packed, OneIdle, Out, FreeChunk;
    FreeOk(s, q);
    LiveKind(s, q);
    if s.g.usage[q / PAGE].kind == LargePage {
      SameFrugal(s, FreeBlock(s, q));
    } else {
      FreeChunkFrugal(s, ZoneOf(s, q), q);
    }
  }

  /** Where a zone goes of which nothing is given out: two are kept for any size, and beyond that exactly its
      pages are free again. */
  lemma {:induction false} RetireWhere(s: Slab, zp: nat)
    requires SlabOk(s) && zp in s.zones && s.zones[zp].zi < |s.lists| && s.zones[zp].nfree == s.zones[zp].nmax
    ensures var s' := Retire(s, zp);
            && s'.zones.Keys == s.zones.Keys - {zp as int}
            && (|s.spare| < THRESHOLD ==> s'.g == s.g && s'.spare == [zp] + s.spare)
            && (|s.spare| == THRESHOLD ==>
                s'.spare == s.spare && forall p :: Has(s'.g.pages, p) <==> Has(s.g.pages, p) || In(s.g, zp, p))
  {
    hide Listed, IsChunk, Distinct, Without, Canon, Has, Free;
    var s' := Retire(s, zp);
    assert ZoneOk(s.g, zp, s.zones[zp]);
    RetireOk(s, zp);
    assert zp in s.g.zs;
    Bounds(s.g, zp);
    if |s.spare| == THRESHOLD {
      forall p | Within(zp, s.g.zpages, p) ensures !Has(s.g.pages, p) { assert In(s.g, zp, p); }
      FreeSound(s.g.pages, s.g.lo, zp, s.g.zpages);
    }
  }

  // ---- whole runs ----

  datatype Op = DoMalloc(n: nat) | DoFree(q: nat)

  ghost predicate Legal(s: Slab, op: Op) { op.DoFree? ==> Live(s, op.q) }

  ghost function Step(s: Slab, op: Op): Slab {
    if !(SlabOk(s) && Legal(s, op)) then s
    else
    match op
    case DoMalloc(n) => Malloc(s, n).0
    case DoFree(q) => FreeBlock(s, q)
  }

  ghost predicate Reaches(s: Slab, ops: seq<Op>, s': Slab)
    decreases |ops|
  {
    if ops == [] then s' == s else Legal(s, ops[0]) && Reaches(Step(s, ops[0]), ops[1..], s')
  }

  /** The invariant over every run. */
  lemma {:induction false} RunOk(s: Slab, ops: seq<Op>, s': Slab)
    requires SlabOk(s) && Reaches(s, ops, s')
    ensures SlabOk(s')
    decreases |ops|
  {
    hide SlabOk, Live, Malloc, FreeBlock;
    if ops != [] {
      match ops[0] {
        case DoMalloc(n) => MallocOk(s, n);
        case DoFree(q) => FreeOk(s, q);
      }
      RunOk(Step(s, ops[0]), ops[1..], s');
    }
  }

  /** Whatever happens in a run, a block that is not freed stays where it is, with the bytes it had. */
  lemma {:induction false} BlockStays(s: Slab, ops: seq<Op>, s': Slab, x: nat)
    requires SlabOk(s) && Reaches(s, ops, s') && Live(s, x) && DoFree(x) !in ops
    ensures Live(s', x) && Bytes(s', x) == Bytes(s, x)
    decreases |ops|
  {
    hide SlabOk, Live, Bytes, Malloc, FreeBlock;
    if ops != [] {
      var s1 := Step(s, ops[0]);
      assert ops[0] in ops;
      match ops[0] {
        case DoMalloc(n) => MallocOk(s, n);
        case DoFree(q) => FreeOk(s, q);
      }
      BlockStays(s1, ops[1..], s', x);
    }
  }

  /** Over every run zones are packed, and of each size at most one zone with nothing given out is in
      service: memory that is freed becomes free for other sizes. */
  lemma {:induction false} RunFrugal(s: Slab, ops: seq<Op>, s': Slab)
    requires Frugal(s) && Reaches(s, ops, s')
    ensures Frugal(s')
    decreases |ops|
  {
    hide Frugal, Live, Malloc, FreeBlock;
    FrugalOk(s);
    if ops != [] {
      match ops[0] {
        case DoMalloc(n) => MallocFrugal(s, n);
        case DoFree(q) => FreeFrugal(s, q);
      }
      RunFrugal(Step(s, ops[0]), ops[1..], s');
    }
  }

  lemma {:induction false} FrugalOk(s: Slab)
    requires Frugal(s)
    ensures SlabOk(s)
  {
  }

  lemma {:induction false} UpMultiple(n: nat, g: nat)
    requires g > 0
    ensures Up(n, g) % g == 0
  {
    B.Divided(Up(n, g), g, (n + g - 1) / g, 0);
  }

  lemma {:induction false} MultipleSum(a: nat, b: nat, g: nat)
    requires g > 0 && a % g == 0 && b % g == 0
    ensures (a + b) % g == 0
  {
    var (k, l) := (a / g, b / g);
    assert a == g * k && b == g * l;
    assert a + b == g * (k + l);
    B.Divided(a + b, g, k + l, 0);
  }

  lemma {:induction false} MultipleTimes(a: nat, k: nat, g: nat)
    requires g > 0 && a % g == 0
    ensures (k * a) % g == 0
    decreases k
  {
    if k > 0 {
      MultipleTimes(a, k - 1, g);
      assert k * a == (k - 1) * a + a;
      MultipleSum((k - 1) * a, a, g);
    }
  }

  /** A chunk begins at a multiple of `g`, if the pages, the offset of the first one and its size do. */
  lemma {:induction false} ChunkAligned(g: Ground, zp: nat, z: Zone, q: nat, m: nat)
    requires PackedZone(g, zp, z) && IsChunk(z, q) && m > 0 && PAGE % m == 0
    requires FirstOffset(z.chunk) % m == 0 && z.chunk % m == 0
    ensures q % m == 0
  {
    hide FirstOffset;
    var k: nat :| k <= z.uindex && q == Chunk(z, k);
    MultipleTimes(PAGE, zp, m);
    MultipleTimes(z.chunk, k, m);
    MultipleSum(zp * PAGE, FirstOffset(z.chunk), m);
    MultipleSum(zp * PAGE + FirstOffset(z.chunk), k * z.chunk, m);
  }

  lemma {:induction false} SizesAligned(zi: int)
    requires 0 <= zi < NZONES
    ensures ChunkSize(zi) % 8 == 0 && ChunkSize(zi) > 0
  {
  }

  /** Of two powers of two the smaller divides the other. */
  lemma {:induction false} PowerDivides(n: nat, m: nat)
    requires PowerOf2(n) && PowerOf2(m) && n <= m
    ensures m % n == 0
    decreases n
  {
    if n > 1 {
      PowerDivides(n / 2, m / 2);
      var k := m / 2 / (n / 2);
      assert m / 2 == n / 2 * k && n == 2 * (n / 2) && m == 2 * (m / 2);
      assert m == n * k;
      B.Divided(m, n, k, 0);
    }
  }

  lemma {:induction false} PageIsPower()
    ensures PowerOf2(PAGE)
  {
    Eight();
    assert PowerOf2(64) by { assert PowerOf2(32) by { assert PowerOf2(16); } }
    assert PowerOf2(512) by { assert PowerOf2(256) by { assert PowerOf2(128); } }
    assert PowerOf2(2048) by { assert PowerOf2(1024); }
  }

  /** Every chunk given out begins at a multiple of 8, and one of a power of two up to a page at a multiple of
      its size. */
  lemma {:induction false} LiveAligned(s: Slab, zp: int, q: nat)
    requires Frugal(s) && LiveChunk(s, zp, q)
    ensures q % 8 == 0 && (PowerOf2(s.zones[zp].chunk) && s.zones[zp].chunk <= PAGE ==> q % s.zones[zp].chunk == 0)
  {
    hide IsChunk, Listed, GroundOk, PowerOf2, Up, ChunkSize, OneIdle, SpareOk;
    var z := s.zones[zp];
    assert ZoneOk(s.g, zp, z) && PackedZone(s.g, zp, z);
    SizesAligned(z.zi);
    UpMultiple(ZONE_HEADER, 8);
    UpMultiple(ZONE_HEADER, z.chunk);
    if PowerOf2(z.chunk) {
      Eight();
      PageIsPower();
      PowerDivides(8, z.chunk);
      Whole(z.chunk);
      if z.chunk <= PAGE { PowerDivides(z.chunk, PAGE); }
      if z.chunk <= PAGE { ChunkAligned(s.g, zp, z, q, z.chunk); }
      EightDivides(Up(ZONE_HEADER, z.chunk), z.chunk);
    }
    ChunkAligned(s.g, zp, z, q, 8);
  }

  lemma {:induction false} Whole(n: nat)
    requires n > 0
    ensures n % n == 0
  {
    B.Divided(n, n, 1, 0);
  }

  lemma {:induction false} EightDivides(a: nat, c: nat)
    requires c > 0 && a % c == 0 && c % 8 == 0
    ensures a % 8 == 0
  {
    assert a == c * (a / c);
    MultipleTimes(c, a / c, 8);
  }

  /** zone_size in pages: the init loop doubles it while it is below a 1024th of the heap. */
  function ZonePages(limsize: nat, zpages: nat): (r: nat)
    requires zpages in {8, 16, 32}
    ensures r in {8, 16, 32}
    decreases 32 - zpages
  {
    if zpages < 32 && zpages * PAGE * 2 < limsize / 1024 then ZonePages(limsize, 2 * zpages) else zpages
  }

  /** The zone size is 8, 16 or 32 pages: the least of them that is the largest, or twice of which is no
      longer below a 1024th of the heap; requests below a quarter of it, and 16384 at most, go to zones. */
  lemma {:induction false} ZonePagesIs(limsize: nat, zpages: nat)
    requires zpages in {8, 16, 32}
    ensures var r := ZonePages(limsize, zpages);
            && zpages <= r && (r == 32 || r * PAGE * 2 >= limsize / 1024)
            && forall k | k in {8, 16, 32} && zpages <= k < r :: k * PAGE * 2 < limsize / 1024
    ensures forall g: Ground :: ZoneLimit(g) == if ZoneBytes(g) / 4 > ZONE_LIMIT then ZONE_LIMIT else ZoneBytes(g) / 4
    decreases 32 - zpages
  {
    if zpages < 32 && zpages * PAGE * 2 < limsize / 1024 { ZonePagesIs(limsize, 2 * zpages); }
  }

  /** The state rt_system_heap_init sets up, the first `m` pages going to the descriptors. */
  function Init(npages: nat, m: nat): Slab
    requires m < npages
  {
    Slab(Ground(ZonePages(npages * PAGE, 8), m, npages, [Run(m, npages - m)], map[], {}, map[], map[]),
         map[], seq(NZONES, _ => []), [], 0)
  }

  lemma {:induction false} InitOk(npages: nat, m: nat)
    requires m < npages
    ensures Frugal(Init(npages, m)) && forall q: nat :: !Live(Init(npages, m), q)
  {
    var s := Init(npages, m);
    assert s.g.pages[1..] == [];
    assert Canon(s.g.pages, m);
    forall p ensures Has(s.g.pages, p) <==> m <= p < npages { HasCons(s.g.pages[0], [], p); }
  }
}
