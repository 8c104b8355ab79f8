/** Zones of src/slab.c: a zone holds chunks of one size, some never used, some on its free list, the
    rest given out.  Addresses count bytes from heap_start. */
module SlabSpec {
  import opened Seqs
  import opened Options
  import opened SlabGround
  import B = Bits

  const NZONES := 72
  const THRESHOLD := 2
  const ZONE_HEADER := 36
  const ZONE_LIMIT := 16384

  // ---- zone index ----

  function Up(n: nat, g: nat): nat
    requires g > 0
  {
    (n + g - 1) / g * g
  }

  /** zoneindex: the zone list for a request, and the chunk size it is rounded to. */
  function ZoneIndex(n: nat): (int, nat) {
    if n < 128 then (Up(n, 8) / 8 - 1, Up(n, 8))
    else if n < 256 then (Up(n, 16) / 16 + 7, Up(n, 16))
    else if n < 512 then (Up(n, 32) / 32 + 15, Up(n, 32))
    else if n < 1024 then (Up(n, 64) / 64 + 23, Up(n, 64))
    else if n < 2048 then (Up(n, 128) / 128 + 31, Up(n, 128))
    else if n < 4096 then (Up(n, 256) / 256 + 39, Up(n, 256))
    else if n < 8192 then (Up(n, 512) / 512 + 47, Up(n, 512))
    else if n < 16384 then (Up(n, 1024) / 1024 + 55, Up(n, 1024))
    else (0, n)
  }

  /** The chunk size of each zone list. */
  function ChunkSize(zi: int): int {
    if zi < 16 then (zi + 1) * 8
    else if zi < 24 then (zi - 7) * 16
    else if zi < 32 then (zi - 15) * 32
    else if zi < 40 then (zi - 23) * 64
    else if zi < 48 then (zi - 31) * 128
    else if zi < 56 then (zi - 39) * 256
    else if zi < 64 then (zi - 47) * 512
    else (zi - 55) * 1024
  }

  /** The two results belong together; the chunk holds the request and wastes less than an eighth of it,
      or seven bytes. */
  lemma {:induction false} ZoneIndexOk(n: nat)
    requires 1 <= n < ZONE_LIMIT
    ensures var (zi, size) := ZoneIndex(n);
            && 0 <= zi < NZONES && size == ChunkSize(zi) && n <= size && 8 * (size - n) < n + 64
            && (n < 8192 ==> size <= 8192) && size <= ZONE_LIMIT
  {
    hide Up;
    var g := if n < 128 then 8 else if n < 256 then 16 else if n < 512 then 32 else if n < 1024 then 64
             else if n < 2048 then 128 else if n < 4096 then 256 else if n < 8192 then 512 else 1024;
    UpIs(n, g);
  }

  lemma {:induction false} UpIs(n: nat, g: nat)
    requires g > 0
    ensures n <= Up(n, g) < n + g && Up(n, g) / g * g == Up(n, g)
  {
    var q := (n + g - 1) / g;
    assert n + g - 1 == q * g + (n + g - 1) % g;
    AtLeast(q * g, g, q);
    assert q * g / g <= q by { if q * g / g > q { Times(q + 1, q * g / g, g); } }
  }

  lemma {:induction false} Times(a: nat, b: nat, c: nat)
    requires a <= b
    ensures a * c <= b * c
  {
  }

  lemma {:induction false} AtLeast(a: nat, g: nat, k: nat)
    requires g > 0 && a >= k * g
    ensures a / g >= k
  {
    var q := a / g;
    assert a == q * g + a % g;
    if q < k { Times(q + 1, k, g); }
  }

  lemma {:induction false} ChunkSizesDiffer(a: int, b: int)
    requires 0 <= a < b < NZONES
    ensures 8 <= ChunkSize(a) < ChunkSize(b)
  {
  }

  lemma {:induction false} ChunkBefore(n: nat)
    requires 1 <= n < ZONE_LIMIT
    ensures var zi := ZoneIndex(n).0; zi > 0 ==> ChunkSize(zi - 1) < n
  {
    hide Up;
    var g := if n < 128 then 8 else if n < 256 then 16 else if n < 512 then 32 else if n < 1024 then 64
             else if n < 2048 then 128 else if n < 4096 then 256 else if n < 8192 then 512 else 1024;
    UpIs(n, g);
  }

  /** Index and chunk size determine each other, and the list chosen is the one with the smallest chunks
      that hold the request. */
  lemma {:induction false} ZoneIndexLeast(n: nat, zj: int)
    requires 1 <= n < ZONE_LIMIT && 0 <= zj < NZONES
    ensures var (zi, size) := ZoneIndex(n);
            (ChunkSize(zj) == size <==> zj == zi) && (n <= ChunkSize(zj) <==> zi <= zj)
  {
    hide ZoneIndex, ChunkSize;
    ZoneIndexOk(n);
    ChunkBefore(n);
    var zi := ZoneIndex(n).0;
    if zj < zi {
      ChunkSizesDiffer(zj, zi);
      if zj < zi - 1 { ChunkSizesDiffer(zj, zi - 1); }
    } else if zi < zj {
      ChunkSizesDiffer(zi, zj);
    }
  }

  // ---- zones ----

  /** `free` is the list of freed chunks, by address. */
  datatype Zone = Zone(nfree: nat, nmax: nat, base: nat, uindex: nat, chunk: nat, zi: nat, free: seq<nat>)

  function Chunk(z: Zone, k: nat): nat { z.base + k * z.chunk }

  /** `cnt` is zone_free_cnt, `spare` the list of whole free zones; lists name zones by first page. */
  datatype Slab = Slab(g: Ground, zones: map<int, Zone>, lists: seq<seq<nat>>, spare: seq<nat>, cnt: nat)

  function ZoneBytes(g: Ground): nat { g.zpages * PAGE }

  function ZoneLimit(g: Ground): nat { if g.zpages * 1024 > ZONE_LIMIT then ZONE_LIMIT else g.zpages * 1024 }

  predicate PowerOf2(n: nat) { n == 1 || (n > 0 && n % 2 == 0 && PowerOf2(n / 2)) }

  /** Chunks of a power of two begin at a multiple of their size, others at a multiple of 8. */
  function FirstOffset(size: nat): (off: nat)
    requires size > 0
  {
    if PowerOf2(size) then Up(ZONE_HEADER, size) else Up(ZONE_HEADER, 8)
  }

  /** The test of the code for a power of two. */
  lemma {:induction false} PowerTest(n: nat)
    requires n > 0
    ensures B.Or(n, n - 1) + 1 == 2 * n <==> PowerOf2(n)
    decreases n
  {
    var k := n / 2;
    if n % 2 == 0 {
      assert (n - 1) / 2 == k - 1 && (n - 1) % 2 == 1;
      PowerTest(k);
    } else {
      assert (n - 1) / 2 == k && n == 2 * k + 1;
      B.OrSelf(k);
    }
  }

  /** Masking with a power of two rounds down to a multiple of it. */
  lemma {:induction false} MaskIs(x: nat, n: nat)
    requires PowerOf2(n)
    ensures B.AndNot(x, n - 1) == x / n * n
    decreases n
  {
    hide B.AndNot;
    if n == 1 {
      B.AndNotZero(x);
    } else {
      var k := n / 2;
      MaskIs(x / 2, k);
      MaskHalf(x, k);
    }
  }

  lemma {:induction false} MaskHalf(x: nat, k: nat)
    requires k > 0 && B.AndNot(x / 2, k - 1) == x / 2 / k * k
    ensures B.AndNot(x, 2 * k - 1) == x / (2 * k) * (2 * k)
  {
    B.Halves(x, k);
    var q := x / 2 / k;
    assert (2 * k - 1) / 2 == k - 1 && (2 * k - 1) % 2 == 1;
    assert B.AndNot(x, 2 * k - 1) == 2 * B.AndNot(x / 2, k - 1);
    assert q * (2 * k) == 2 * (q * k);
  }

  /** The offset of the first chunk, as the code computes it with masks. */
  function MaskedOffset(size: nat): nat
    requires size > 0
  {
    if B.Or(size, size - 1) + 1 == 2 * size then B.AndNot(ZONE_HEADER + size - 1, size - 1)
    else B.AndNot(ZONE_HEADER + 7, 7)
  }

  lemma {:induction false} MaskedOffsetIs(size: nat)
    requires size > 0
    ensures MaskedOffset(size) == FirstOffset(size)
  {
    hide PowerOf2, B.Or, B.AndNot;
    PowerTest(size);
    if PowerOf2(size) { MaskIs(ZONE_HEADER + size - 1, size); }
    assert PowerOf2(8) by { Eight(); }
    MaskIs(ZONE_HEADER + 7, 8);
  }

  lemma {:induction false} Eight()
    ensures PowerOf2(8)
  {
    assert PowerOf2(1) && PowerOf2(2) && PowerOf2(4);
  }

  function NewZone(g: Ground, zp: nat, zi: nat, size: nat): Zone
    requires 0 < size && FirstOffset(size) + size <= ZoneBytes(g)
  {
    var nmax := (ZoneBytes(g) - FirstOffset(size)) / size;
    NewZoneHas(ZoneBytes(g), FirstOffset(size), size);
    Zone(nmax - 1, nmax, zp * PAGE + FirstOffset(size), 0, size, zi, [])
  }

  lemma {:induction false} NewZoneHas(total: nat, off: nat, size: nat)
    requires 0 < size && off + size <= total
    ensures (total - off) / size >= 1 && off + (total - off) / size * size <= total
  {
    var q := (total - off) / size;
    assert total - off == q * size + (total - off) % size;
    AtLeast(total - off, size, 1);
  }

  // ---- rt_malloc ----

  /** A chunk from the first zone of the list: a never used one while there are any. */
  function FromZone(s: Slab, zi: nat): (Slab, nat)
    requires zi < |s.lists| && s.lists[zi] != [] && s.lists[zi][0] in s.zones
    requires var z := s.zones[s.lists[zi][0]]; z.nfree > 0 && (z.uindex + 1 == z.nmax ==> z.free != [])
  {
    var zp := s.lists[zi][0];
    var z := s.zones[zp];
    var unused := z.uindex + 1 != z.nmax;
    var z' := if unused then z.(nfree := z.nfree - 1, uindex := z.uindex + 1)
              else z.(nfree := z.nfree - 1, free := z.free[1..]);
    (s.(zones := s.zones[zp as int := z'], lists := if z'.nfree == 0 then s.lists[zi := s.lists[zi][1..]] else s.lists),
     if unused then Chunk(z, z.uindex + 1) else z.free[0])
  }

  /** A zone is set up for chunks of one size and its first chunk given out. */
  function Install(s: Slab, zp: nat, zi: nat): (Slab, nat)
    requires zi < |s.lists| && 0 < ChunkSize(zi) && FirstOffset(ChunkSize(zi)) + ChunkSize(zi) <= ZoneBytes(s.g)
  {
    var z := NewZone(s.g, zp, zi, ChunkSize(zi));
    (s.(zones := s.zones[zp as int := z], lists := s.lists[zi := [zp] + s.lists[zi]]), Chunk(z, 0))
  }

  // ---- the invariant ----

  ghost predicate IsChunk(z: Zone, q: nat) { exists k: nat :: k <= z.uindex && q == Chunk(z, k) }

  ghost predicate ZoneOk(g: Ground, zp: int, z: Zone) {
    && z.zi < NZONES && z.chunk == ChunkSize(z.zi) && z.chunk > 0 && z.nmax >= 3
    && zp >= 0 && z.base >= zp * PAGE + ZONE_HEADER && z.base + z.nmax * z.chunk <= (zp + g.zpages) * PAGE
    && z.uindex < z.nmax && z.nfree == z.nmax - 1 - z.uindex + |z.free|
    && Distinct(z.free) && forall q | q in z.free :: IsChunk(z, q)
  }

  /** A zone is on its list exactly when it has free chunks. */
  ghost predicate Listed(s: Slab, zi: nat) {
    zi < |s.lists| && Distinct(s.lists[zi]) &&
    forall zp: nat :: zp in s.lists[zi] <==> zp in s.zones && s.zones[zp].zi == zi && s.zones[zp].nfree > 0
  }

  ghost predicate ZonesOk(g: Ground, zones: map<int, Zone>) { forall zp | zp in zones :: ZoneOk(g, zp, zones[zp]) }

  ghost predicate AllListed(s: Slab) { |s.lists| == NZONES && forall zi: nat | zi < NZONES :: Listed(s, zi) }

  /** Every zone is either in service or spare; the count of spare zones is right and small. */
  ghost predicate SpareOk(s: Slab) {
    && Distinct(s.spare) && s.cnt == |s.spare| <= THRESHOLD
    && (forall b :: b in s.g.zs <==> b in s.zones || b in s.spare)
    && (forall b | b in s.spare :: b !in s.zones)
  }

  ghost predicate SlabOk(s: Slab) { GroundOk(s.g) && ZonesOk(s.g, s.zones) && AllListed(s) && SpareOk(s) }

  // ---- what is given out ----

  ghost predicate LiveChunk(s: Slab, zp: int, q: nat) {
    zp in s.zones && IsChunk(s.zones[zp], q) && q !in s.zones[zp].free
  }

  ghost predicate Live(s: Slab, q: nat) {
    (exists zp :: LiveChunk(s, zp, q)) || (q % PAGE == 0 && q / PAGE in s.g.large)
  }

  /** The zone that holds address `q`, by the page descriptor. */
  function ZoneOf(s: Slab, q: nat): int
  {
    if q / PAGE in s.g.usage then q / PAGE - s.g.usage[q / PAGE].size else 0
  }

  /** Bytes usable at a live address. */
  function Bytes(s: Slab, q: nat): nat {
    if q / PAGE in s.g.large then s.g.large[q / PAGE] * PAGE
    else if ZoneOf(s, q) in s.zones then s.zones[ZoneOf(s, q)].chunk else 0
  }

  // ---- the operations, whole ----

  lemma {:induction false} ZoneFits(g: Ground, n: nat)
    requires g.zpages in {8, 16, 32} && 1 <= n < ZoneLimit(g)
    ensures var size := ZoneIndex(n).1;
            && 1 <= n < ZONE_LIMIT && 0 < size && 4 * size <= ZoneBytes(g) && 4 * FirstOffset(size) <= ZoneBytes(g)
            && FirstOffset(size) >= ZONE_HEADER
  {
    ZoneIndexOk(n);
    UpIs(ZONE_HEADER, ZoneIndex(n).1);
    UpIs(ZONE_HEADER, 8);
    if ZoneIndex(n).1 >= ZONE_HEADER { UpOnce(ZONE_HEADER, ZoneIndex(n).1); }
  }

  lemma {:induction false} UpOnce(n: nat, g: nat)
    requires 0 < n <= g
    ensures Up(n, g) == g
  {
    var q := (n + g - 1) / g;
    assert n + g - 1 == q * g + (n + g - 1) % g;
    AtLeast(n + g - 1, g, 1);
    if q > 1 { Times(2, q, g); }
  }

  function Malloc(s: Slab, n: nat): (Slab, Option<nat>)
    requires SlabOk(s)
  {
    if n == 0 then (s, None)
    else if n >= ZoneLimit(s.g) then
      var (g, r) := TakeLarge(s.g, (n + PAGE - 1) / PAGE);
      if r.None? then (s, None) else (s.(g := g), Some(r.value * PAGE))
    else
      ZoneFits(s.g, n);
      ZoneIndexOk(n);
      var (zi, size) := ZoneIndex(n);
      assert Listed(s, zi);
      if s.lists[zi] != [] then
        assert s.lists[zi][0] in s.lists[zi];
        var (s', q) := FromZone(s, zi);
        (s', Some(q))
      else if s.spare != [] then
        var (s', q) := Install(s.(spare := s.spare[1..], cnt := s.cnt - 1), s.spare[0], zi);
        (s', Some(q))
      else
        var (g, r) := TakeZone(s.g);
        if r.None? then (s, None)
        else
          var (s', q) := Install(s.(g := g), r.value, zi);
          (s', Some(q))
  }

  /** The chunk goes to the head of its zone's free list, and a zone that had none free back to its list. */
  function PutBack(s: Slab, zp: nat, q: nat): Slab
    requires zp in s.zones && s.zones[zp].zi < |s.lists|
  {
    var z := s.zones[zp];
    s.(zones := s.zones[zp as int := z.(nfree := z.nfree + 1, free := [q] + z.free)],
       lists := if z.nfree == 0 then s.lists[z.zi := [zp] + s.lists[z.zi]] else s.lists)
  }

  /** An all free zone that is not alone on its list becomes spare; beyond the threshold its pages go back. */
  function Retire(s: Slab, zp: nat): Slab
    requires zp in s.zones && s.zones[zp].zi < |s.lists|
  {
    var zi := s.zones[zp].zi;
    var s1 := s.(zones := s.zones - {zp as int}, lists := s.lists[zi := Without(s.lists[zi], zp)]);
    if s.cnt + 1 > THRESHOLD then s1.(g := GiveZone(s.g, zp)) else s1.(spare := [zp] + s.spare, cnt := s.cnt + 1)
  }

  /** Whether the zone has a neighbour on its list: a next one, or one that stands first. */
  predicate NotAlone(list: seq<nat>, zp: nat) { list != [] && (list[|list| - 1] != zp || list[0] != zp) }

  function FreeChunk(s: Slab, zp: nat, q: nat): Slab
    requires zp in s.zones && s.zones[zp].zi < |s.lists|
  {
    var s1 := PutBack(s, zp, q);
    var z := s1.zones[zp];
    if z.nfree == z.nmax && NotAlone(s1.lists[z.zi], zp) then Retire(s1, zp) else s1
  }
}
