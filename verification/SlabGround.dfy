/** The page level of src/slab.c: which pages are free, and which belong to a zone or to a large block,
    with the page descriptors (memusage) that lead from an address to its zone. */
module SlabGround {
  import opened Options
  import opened SlabPages

  const PAGE := 4096

  datatype Kind = FreePage | SmallPage | LargePage

  datatype Usage = Usage(kind: Kind, size: nat)

  /** `zs` are the first pages of the zones, `large` the large blocks with their page counts, `own` the
      owner of every page that is not free. */
  datatype Ground = Ground(zpages: nat, lo: nat, hi: nat, pages: seq<Run>, usage: map<int, Usage>,
                           zs: set<int>, large: map<int, nat>, own: map<int, int>)

  function Size(g: Ground, b: int): nat {
    if b in g.zs then g.zpages else if b in g.large then g.large[b] else 0
  }

  /** Page `p` lies in the zone or block that begins at page `b`. */
  predicate In(g: Ground, b: int, p: int) { b <= p < b + Size(g, b) }

  ghost predicate OwnOk(g: Ground) {
    && (forall p :: g.lo <= p < g.hi <==> p in g.own || Has(g.pages, p))
    && (forall p | p in g.own :: !Has(g.pages, p) && In(g, g.own[p], p))
    && (forall b, p | In(g, b, p) :: p in g.own && g.own[p] == b)
  }

  ghost predicate UsageOk(g: Ground) {
    && (forall b | b in g.large ::
       b !in g.zs && g.large[b] > 0 && b in g.usage && g.usage[b] == Usage(LargePage, g.large[b]))
    && (forall b, p | b in g.zs && In(g, b, p) :: p in g.usage && g.usage[p] == Usage(SmallPage, p - b))
  }

  ghost predicate GroundOk(g: Ground) {
    g.zpages in {8, 16, 32} && Canon(g.pages, g.lo) && OwnOk(g) && UsageOk(g)
  }

  function Claim(own: map<int, int>, a: nat, n: nat): (r: map<int, int>)
    ensures forall p :: p in r <==> Within(a, n, p) || p in own
    ensures forall p | p in r :: r[p] == if Within(a, n, p) then a else own[p]
  {
    own + map p: int | a <= p < a + n && Within(a, n, p) :: a
  }

  function Disclaim(own: map<int, int>, b: int): (r: map<int, int>)
    ensures forall p :: p in r <==> p in own && own[p] != b
    ensures forall p | p in r :: r[p] == own[p]
  {
    map p | p in own && own[p] != b :: own[p]
  }

  /** The descriptors of a zone's pages hold their distance from its first page. */
  function Describe(usage: map<int, Usage>, a: nat, n: nat): (r: map<int, Usage>)
    ensures forall p :: p in r <==> Within(a, n, p) || p in usage
    ensures forall p | p in r :: r[p] == if Within(a, n, p) then Usage(SmallPage, p - a) else usage[p]
  {
    usage + map p: int | a <= p < a + n && Within(a, n, p) :: Usage(SmallPage, p - a)
  }

  function Erase(usage: map<int, Usage>, a: nat, n: nat): (r: map<int, Usage>)
    ensures forall p :: p in r <==> Within(a, n, p) || p in usage
    ensures forall p | p in r :: r[p] == if Within(a, n, p) then Usage(FreePage, 0) else usage[p]
  {
    usage + map p: int | a <= p < a + n && Within(a, n, p) :: Usage(FreePage, 0)
  }

  function TakeZone(g: Ground): (Ground, Option<nat>) {
    var (pages, r) := Alloc(g.pages, g.zpages);
    if r.None? then (g, None)
    else (g.(pages := pages, zs := g.zs + {r.value}, own := Claim(g.own, r.value, g.zpages),
             usage := Describe(g.usage, r.value, g.zpages)), r)
  }

  function GiveZone(g: Ground, b: nat): Ground {
    g.(pages := Free(g.pages, b, g.zpages), zs := g.zs - {b}, own := Disclaim(g.own, b),
        usage := Erase(g.usage, b, g.zpages))
  }

  function TakeLarge(g: Ground, n: nat): (Ground, Option<nat>) {
    var (pages, r) := Alloc(g.pages, n);
    if r.None? then (g, None)
    else (g.(pages := pages, large := g.large[r.value as int := n], own := Claim(g.own, r.value, n),
             usage := g.usage[r.value as int := Usage(LargePage, n)]), r)
  }

  function GiveLarge(g: Ground, b: nat): Ground
    requires b in g.large
  {
    g.(pages := Free(g.pages, b, g.large[b]), large := g.large - {b}, own := Disclaim(g.own, b),
       usage := g.usage[b as int := Usage(LargePage, 0)])
  }

  lemma {:induction false} TakeZoneOk(g: Ground)
    requires GroundOk(g)
    ensures var (g', r) := TakeZone(g); GroundOk(g') && (r.Some? ==> r.value !in g.zs && r.value !in g.large)
  {
    hide Alloc, Has, Canon, Claim, Describe;
    var (g', r) := TakeZone(g);
    AllocSound(g.pages, g.lo, g.zpages);
    if r.Some? {
      var a := r.value;
      assert Within(a, g.zpages, a);
      assert !In(g, a, a);
      forall b, p | In(g', b, p) ensures p in g'.own && g'.own[p] == b { if b != a { assert In(g, b, p); } }
      forall p | p in g'.own ensures !Has(g'.pages, p) && In(g', g'.own[p], p) {
        if !Within(a, g.zpages, p) { assert In(g, g.own[p], p); }
      }
      forall b, p | b in g'.zs && In(g', b, p) ensures p in g'.usage && g'.usage[p] == Usage(SmallPage, p - b) {
        if b != a { assert In(g, b, p); }
      }
      forall b | b in g'.large ensures b in g'.usage && g'.usage[b] == Usage(LargePage, g'.large[b]) {
        assert In(g, b, b);
      }
    }
  }

  lemma {:induction false} GiveZoneOk(g: Ground, b: nat)
    requires GroundOk(g) && b in g.zs && b >= g.lo
    ensures GroundOk(GiveZone(g, b))
  {
    hide Free, Has, Canon, Disclaim, Erase;
    var (g', n) := (GiveZone(g, b), g.zpages);
    forall p | Within(b, n, p) ensures !Has(g.pages, p) { assert In(g, b, p); }
    FreeSound(g.pages, g.lo, b, n);
    forall p ensures p in g.own && g.own[p] == b <==> Within(b, n, p) {
      if Within(b, n, p) { assert In(g, b, p); }
    }
    forall c, p | In(g', c, p) ensures p in g'.own && g'.own[p] == c { assert In(g, c, p); }
    forall c, p | c in g'.zs && In(g', c, p) ensures p in g'.usage && g'.usage[p] == Usage(SmallPage, p - c) {
      assert In(g, c, p);
    }
    forall c | c in g'.large ensures c in g'.usage && g'.usage[c] == Usage(LargePage, g'.large[c]) {
      assert In(g, c, c);
    }
  }

  lemma {:induction false} TakeLargeOk(g: Ground, n: nat)
    requires GroundOk(g) && n > 0
    ensures var (g', r) := TakeLarge(g, n); GroundOk(g') && (r.Some? ==> r.value !in g.zs && r.value !in g.large)
  {
    hide Alloc, Has, Canon, Claim;
    var (g', r) := TakeLarge(g, n);
    AllocSound(g.pages, g.lo, n);
    if r.Some? {
      var a := r.value;
      assert Within(a, n, a);
      assert !In(g, a, a);
      forall b, p | In(g', b, p) ensures p in g'.own && g'.own[p] == b { if b != a { assert In(g, b, p); } }
      forall p | p in g'.own ensures !Has(g'.pages, p) && In(g', g'.own[p], p) {
        if !Within(a, n, p) { assert In(g, g.own[p], p); }
      }
      forall b, p | b in g'.zs && In(g', b, p) ensures p in g'.usage && g'.usage[p] == Usage(SmallPage, p - b) {
        assert In(g, b, p);
      }
      forall b | b in g'.large && b != a ensures b in g'.usage && g'.usage[b] == Usage(LargePage, g'.large[b]) {
        assert In(g, b, b);
      }
    }
  }

  lemma {:induction false} GiveLargeOk(g: Ground, b: nat)
    requires GroundOk(g) && b in g.large
    ensures GroundOk(GiveLarge(g, b))
  {
    hide Free, Has, Canon, Disclaim;
    var (g', n) := (GiveLarge(g, b), g.large[b]);
    assert In(g, b, b);
    forall p | Within(b, n, p) ensures !Has(g.pages, p) { assert In(g, b, p); }
    FreeSound(g.pages, g.lo, b, n);
    forall p ensures p in g.own && g.own[p] == b <==> Within(b, n, p) {
      if Within(b, n, p) { assert In(g, b, p); }
    }
    forall c, p | In(g', c, p) ensures p in g'.own && g'.own[p] == c { assert In(g, c, p); }
    forall c, p | c in g'.zs && In(g', c, p) ensures p in g'.usage && g'.usage[p] == Usage(SmallPage, p - c) {
      assert In(g, c, p);
      if p == b { assert In(g, b, b); }
    }
    forall c | c in g'.large ensures c in g'.usage && g'.usage[c] == Usage(LargePage, g'.large[c]) {
      assert In(g, c, c);
    }
  }

  /** Pages of different zones and blocks are different. */
  lemma {:induction false} Apart(g: Ground, b: int, c: int, p: int)
    requires GroundOk(g) && In(g, b, p) && In(g, c, p)
    ensures b == c
  {
  }

  lemma {:induction false} Bounds(g: Ground, b: int)
    requires GroundOk(g) && Size(g, b) > 0
    ensures g.lo <= b && b + Size(g, b) <= g.hi
  {
    hide Has, Canon;
    assert In(g, b, b) && In(g, b, b + Size(g, b) - 1);
  }

  /** From any address in a zone the descriptor of its page leads back to the zone's first page. */
  lemma {:induction false} Recover(g: Ground, b: nat, a: nat)
    requires GroundOk(g) && b in g.zs && b * PAGE <= a < (b + g.zpages) * PAGE
    ensures a / PAGE in g.usage && g.usage[a / PAGE] == Usage(SmallPage, a / PAGE - b)
  {
    hide Has, Canon;
    assert In(g, b, a / PAGE);
  }
}
