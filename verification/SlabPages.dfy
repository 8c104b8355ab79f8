/** The page allocator of src/slab.c: a list of free runs of pages, in address order. */
module SlabPages {
  import opened Options

  datatype Run = Run(start: nat, len: nat)

  /** Runs in address order from `lo` on, with a page between any two: each run is maximal. */
  ghost predicate Canon(rs: seq<Run>, lo: nat) {
    rs == [] || (rs[0].start >= lo && rs[0].len > 0 && Canon(rs[1..], rs[0].start + rs[0].len + 1))
  }

  /** Page `p` is free. */
  predicate Has(rs: seq<Run>, p: int) {
    rs != [] && (rs[0].start <= p < rs[0].start + rs[0].len || Has(rs[1..], p))
  }

  /** rt_page_alloc: the first run that is large enough. */
  function Alloc(rs: seq<Run>, n: nat): (seq<Run>, Option<nat>) {
    if rs == [] then ([], None)
    else if rs[0].len > n then ([Run(rs[0].start + n, rs[0].len - n)] + rs[1..], Some(rs[0].start))
    else if rs[0].len == n then (rs[1..], Some(rs[0].start))
    else
      var (t, r) := Alloc(rs[1..], n);
      ([rs[0]] + t, r)
  }

  /** rt_page_free: grow the run before, or the run behind, or both into one, or insert a new run. */
  function Free(rs: seq<Run>, a: nat, n: nat): seq<Run> {
    if rs == [] then [Run(a, n)]
    else if rs[0].start + rs[0].len == a then
      if |rs| > 1 && rs[0].start + rs[0].len + n == rs[1].start
      then [Run(rs[0].start, rs[0].len + n + rs[1].len)] + rs[2..]
      else [Run(rs[0].start, rs[0].len + n)] + rs[1..]
    else if rs[0].start == a + n then [Run(a, rs[0].len + n)] + rs[1..]
    else if rs[0].start > a + n then [Run(a, n)] + rs
    else [rs[0]] + Free(rs[1..], a, n)
  }

  lemma {:induction false} CanonFrom(rs: seq<Run>, lo: nat, p: int)
    requires Canon(rs, lo) && Has(rs, p)
    ensures p >= lo
    decreases |rs|
  {
    if !(rs[0].start <= p < rs[0].start + rs[0].len) { CanonFrom(rs[1..], rs[0].start + rs[0].len + 1, p); }
  }

  lemma {:induction false} CanonLower(rs: seq<Run>, lo: nat, lo': nat)
    requires Canon(rs, lo) && lo' <= lo
    ensures Canon(rs, lo')
  {
  }

  lemma {:induction false} Behind(rs: seq<Run>, lo: nat)
    requires Canon(rs, lo) && rs != []
    ensures forall p | Has(rs[1..], p) :: p > rs[0].start + rs[0].len
  {
    forall p | Has(rs[1..], p) ensures p > rs[0].start + rs[0].len {
      CanonFrom(rs[1..], rs[0].start + rs[0].len + 1, p);
    }
  }

  lemma {:induction false} FirstRuns(a: seq<Run>, b: seq<Run>, lo: nat)
    requires Canon(a, lo) && Canon(b, lo) && a != [] && b != [] && forall p :: Has(a, p) <==> Has(b, p)
    ensures a[0] == b[0]
  {
    Behind(a, lo);
    Behind(b, lo);
    assert Has(a, a[0].start) && Has(b, b[0].start);
    CanonFrom(b, b[0].start, a[0].start);
    CanonFrom(a, a[0].start, b[0].start);
    assert a[0].start == b[0].start;
    var (x, y) := (a[0].start + a[0].len, b[0].start + b[0].len);
    assert !Has(a, x) && !Has(b, y);
    assert y > x ==> Has(b, x);
    assert x > y ==> Has(a, y);
  }

  /** The list is determined by the set of free pages. */
  lemma {:induction false} Unique(a: seq<Run>, b: seq<Run>, lo: nat)
    requires Canon(a, lo) && Canon(b, lo) && forall p :: Has(a, p) <==> Has(b, p)
    ensures a == b
    decreases |a|
  {
    if a == [] {
      if b != [] { assert Has(b, b[0].start); }
    } else {
      assert Has(a, a[0].start);
      FirstRuns(a, b, lo);
      Behind(a, lo);
      Behind(b, lo);
      forall p ensures Has(a[1..], p) <==> Has(b[1..], p) { assert Has(a, p) <==> Has(b, p); }
      Unique(a[1..], b[1..], a[0].start + a[0].len + 1);
    }
  }

  predicate Within(a: nat, n: nat, p: int) { a <= p < a + n }

  lemma {:induction false} HasCons(r: Run, rs: seq<Run>, p: int)
    ensures Has([r] + rs, p) <==> Within(r.start, r.len, p) || Has(rs, p)
  {
    assert ([r] + rs)[1..] == rs;
  }

  lemma {:induction false} CanonCons(r: Run, rs: seq<Run>, lo: nat)
    requires r.start >= lo && r.len > 0 && Canon(rs, r.start + r.len + 1)
    ensures Canon([r] + rs, lo)
  {
    assert ([r] + rs)[1..] == rs;
  }

  /** Allocation takes `n` free pages out of the first run that has them, and fails exactly when no run is
      large enough. */
  lemma {:induction false} AllocSound(rs: seq<Run>, lo: nat, n: nat)
    requires Canon(rs, lo) && n > 0
    ensures var (t, r) := Alloc(rs, n);
            && Canon(t, lo)
            && (r.None? <==> forall i | 0 <= i < |rs| :: rs[i].len < n)
            && (r.None? ==> t == rs)
            && (r.Some? ==> forall i | 0 <= i < |rs| && rs[i].start < r.value :: rs[i].len < n)
            && (r.Some? ==> r.value >= lo && forall p ::
                  && (Within(r.value, n, p) ==> Has(rs, p)) && (Has(t, p) <==> Has(rs, p) && !Within(r.value, n, p)))
    decreases |rs|
  {
    if rs != [] {
      var (b, rest) := (rs[0], rs[1..]);
      var (t, r) := Alloc(rs, n);
      Behind(rs, lo);
      if b.len > n {
        var b' := Run(b.start + n, b.len - n);
        CanonCons(b', rest, lo);
        forall p ensures Has(t, p) <==> Has(rs, p) && !Within(b.start, n, p) { HasCons(b', rest, p); }
      } else if b.len == n {
        CanonLower(rest, b.start + b.len + 1, lo);
      } else {
        AllocSound(rest, b.start + b.len + 1, n);
        var t1 := Alloc(rest, n).0;
        CanonCons(b, t1, lo);
        if r.Some? {
          forall p
            ensures (Within(r.value, n, p) ==> Has(rs, p)) && (Has(t, p) <==> Has(rs, p) && !Within(r.value, n, p))
          {
            HasCons(b, t1, p);
          }
        } else {
          assert forall i | 0 < i < |rs| :: rs[i] == rest[i - 1];
        }
        assert forall i | 0 < i < |rs| :: rs[i] == rest[i - 1];
      }
      if b.len >= n { Starts(rs, lo); }
    }
  }

  /** The runs stand in the order of their pages. */
  lemma {:induction false} Starts(rs: seq<Run>, lo: nat)
    requires Canon(rs, lo) && rs != []
    ensures forall i | 0 <= i < |rs| :: rs[0].start <= rs[i].start
    decreases |rs|
  {
    if |rs| > 1 {
      Behind(rs, lo);
      Starts(rs[1..], rs[0].start + rs[0].len + 1);
      assert forall i | 0 < i < |rs| :: rs[i] == rs[1..][i - 1];
    }
  }

  /** Freeing pages that are not in the list puts exactly them in, and the runs stay maximal. */
  lemma {:induction false} FreeSound(rs: seq<Run>, lo: nat, a: nat, n: nat)
    requires Canon(rs, lo) && n > 0 && a >= lo && forall p | Within(a, n, p) :: !Has(rs, p)
    ensures var t := Free(rs, a, n); Canon(t, lo) && forall p :: Has(t, p) <==> Has(rs, p) || Within(a, n, p)
    decreases |rs|
  {
    var t := Free(rs, a, n);
    if rs == [] {
      forall p ensures Has(t, p) <==> Within(a, n, p) { HasCons(Run(a, n), [], p); }
    } else {
      var (b, rest) := (rs[0], rs[1..]);
      var e := b.start + b.len;
      Behind(rs, lo);
      assert Has(rs, b.start);
      assert !Within(a, n, b.start);
      if e == a {
        if |rs| > 1 && e + n == rs[1].start {
          var b' := Run(b.start, b.len + n + rs[1].len);
          assert rest[1..] == rs[2..];
          CanonCons(b', rs[2..], lo);
          forall p ensures Has(t, p) <==> Has(rs, p) || Within(a, n, p) { HasCons(b', rs[2..], p); }
        } else {
          FreeGrow(rs, lo, n);
          var b' := Run(b.start, b.len + n);
          CanonCons(b', rest, lo);
          forall p ensures Has(t, p) <==> Has(rs, p) || Within(a, n, p) { HasCons(b', rest, p); }
        }
      } else if b.start == a + n {
        CanonCons(Run(a, b.len + n), rest, lo);
        forall p ensures Has(t, p) <==> Has(rs, p) || Within(a, n, p) { HasCons(Run(a, b.len + n), rest, p); }
      } else if b.start > a + n {
        CanonCons(Run(a, n), rs, lo);
        forall p ensures Has(t, p) <==> Has(rs, p) || Within(a, n, p) { HasCons(Run(a, n), rs, p); }
      } else {
        assert a > e by { assert Has(rs, a) <==> Within(b.start, b.len, a) || Has(rest, a); }
        FreeSound(rest, e + 1, a, n);
        CanonCons(b, Free(rest, a, n), lo);
        forall p ensures Has(t, p) <==> Has(rs, p) || Within(a, n, p) { HasCons(b, Free(rest, a, n), p); }
      }
    }
  }

  /** Growing the first run by `n` pages that are not free leaves a gap before the next run. */
  lemma {:induction false} FreeGrow(rs: seq<Run>, lo: nat, n: nat)
    requires Canon(rs, lo) && rs != [] && n > 0
    requires var e := rs[0].start + rs[0].len;
             (forall p | Within(e, n, p) :: !Has(rs, p)) && (|rs| > 1 ==> e + n != rs[1].start)
    ensures Canon(rs[1..], rs[0].start + rs[0].len + n + 1)
  {
    if |rs| > 1 {
      var e := rs[0].start + rs[0].len;
      assert rs[1..][0] == rs[1];
      assert Has(rs[1..], rs[1].start);
      assert Has(rs, rs[1].start);
      assert !Within(e, n, rs[1].start);
    }
  }

  /** Freeing what was just allocated restores the list. */
  lemma {:induction false} AllocThenFree(rs: seq<Run>, n: nat)
    requires Canon(rs, 0) && n > 0 && Alloc(rs, n).1.Some?
    ensures Free(Alloc(rs, n).0, Alloc(rs, n).1.value, n) == rs
  {
    var (t, r) := Alloc(rs, n);
    AllocSound(rs, 0, n);
    FreeSound(t, 0, r.value, n);
    Unique(Free(t, r.value, n), rs, 0);
  }

  // ---- whole runs ----

  /** The free list, and the allocations that are out. */
  datatype Pages = Pages(free: seq<Run>, live: seq<Run>)

  datatype Op = Take(n: nat) | Give(i: nat)

  function Step(s: Pages, op: Op): Pages {
    match op
    case Take(n) =>
      if n == 0 then s
      else
        var (t, r) := Alloc(s.free, n);
        if r.None? then s else Pages(t, [Run(r.value, n)] + s.live)
    case Give(i) =>
      if i < |s.live| then Pages(Free(s.free, s.live[i].start, s.live[i].len), s.live[..i] + s.live[i + 1..]) else s
  }

  function RunAll(s: Pages, ops: seq<Op>): Pages
    decreases |ops|
  {
    if ops == [] then s else RunAll(Step(s, ops[0]), ops[1..])
  }

  /** How many allocations hold page `p`. */
  function Held(live: seq<Run>, p: int): nat {
    if live == [] then 0 else (if Within(live[0].start, live[0].len, p) then 1 else 0) + Held(live[1..], p)
  }

  /** The list is in order, and every page from `lo` to `hi` is free or in exactly one allocation. */
  ghost predicate Split(s: Pages, lo: nat, hi: nat) {
    && Canon(s.free, lo) && (forall i | 0 <= i < |s.live| :: s.live[i].len > 0 && s.live[i].start >= lo)
    && forall p :: Held(s.live, p) + (if Has(s.free, p) then 1 else 0) == if lo <= p < hi then 1 else 0
  }

  lemma {:induction false} HeldOut(live: seq<Run>, i: nat, p: int)
    requires i < |live|
    ensures Held(live, p) ==
            Held(live[..i] + live[i + 1..], p) + (if Within(live[i].start, live[i].len, p) then 1 else 0)
    decreases i
  {
    if i == 0 {
      assert live[..0] + live[1..] == live[1..];
    } else {
      HeldOut(live[1..], i - 1, p);
      assert (live[..i] + live[i + 1..])[1..] == live[1..][..i - 1] + live[1..][i..];
    }
  }

  lemma {:induction false} StepSplit(s: Pages, op: Op, lo: nat, hi: nat)
    requires Split(s, lo, hi)
    ensures Split(Step(s, op), lo, hi)
  {
    var s' := Step(s, op);
    match op
    case Take(n) =>
      if n > 0 {
        AllocSound(s.free, lo, n);
        var (t, r) := Alloc(s.free, n);
        if r.Some? { assert s'.live[1..] == s.live; }
      }
    case Give(i) =>
      if i < |s.live| {
        var b := s.live[i];
        forall p ensures Held(s.live, p) == Held(s'.live, p) + (if Within(b.start, b.len, p) then 1 else 0) {
          HeldOut(s.live, i, p);
        }
        FreeSound(s.free, lo, b.start, b.len);
      }
  }

  /** Over every run the pages stay split, and whenever nothing is out, the list is again one run: in
      whatever order everything was freed. */
  lemma {:induction false} AllFreed(ops: seq<Op>, lo: nat, hi: nat)
    requires lo < hi
    ensures var s := RunAll(Pages([Run(lo, hi - lo)], []), ops);
            Split(s, lo, hi) && (s.live == [] ==> s.free == [Run(lo, hi - lo)])
  {
    var s0 := Pages([Run(lo, hi - lo)], []);
    var s := RunAll(s0, ops);
    forall p ensures Held(s0.live, p) == 0 && (Has(s0.free, p) <==> lo <= p < hi) { HasCons(s0.free[0], [], p); }
    assert Split(s0, lo, hi);
    RunSplit(s0, ops, lo, hi);
    if s.live == [] {
      forall p ensures Has(s.free, p) <==> Has(s0.free, p) {
        assert Held(s.live, p) == 0;
        HasCons(s0.free[0], [], p);
      }
      Unique(s.free, s0.free, lo);
    }
  }

  lemma {:induction false} RunSplit(s: Pages, ops: seq<Op>, lo: nat, hi: nat)
    requires Split(s, lo, hi)
    ensures Split(RunAll(s, ops), lo, hi)
    decreases |ops|
  {
    hide Split, Step;
    if ops != [] {
      StepSplit(s, ops[0], lo, hi);
      RunSplit(Step(s, ops[0]), ops[1..], lo, hi);
    }
  }

  // ---- the list in place ----

  function Glue(done: seq<Run>, x: (seq<Run>, Option<nat>)): (seq<Run>, Option<nat>) { (done + x.0, x.1) }

  /** One turn of the allocation loop. */
  lemma {:induction false} AllocAt(list: seq<Run>, i: nat, n: nat)
    requires i <= |list|
    ensures Glue(list[..i], Alloc(list[i..], n)) ==
            if i == |list| then (list, None)
            else if list[i].len > n then (list[i := Run(list[i].start + n, list[i].len - n)], Some(list[i].start))
            else if list[i].len == n then (list[..i] + list[i + 1..], Some(list[i].start))
            else Glue(list[..i + 1], Alloc(list[i + 1..], n))
  {
    if i < |list| {
      var (b, rest) := (list[i], list[i..]);
      assert rest[0] == b && rest[1..] == list[i + 1..];
      if b.len > n {
        assert list[i := Run(b.start + n, b.len - n)] == list[..i] + ([Run(b.start + n, b.len - n)] + rest[1..]);
      } else if b.len < n {
        var t := Alloc(rest[1..], n).0;
        assert list[..i] + ([b] + t) == list[..i + 1] + t;
      }
    } else {
      assert list[..i] + [] == list;
    }
  }

  /** One turn of the freeing loop. */
  lemma {:induction false} FreeAt(list: seq<Run>, i: nat, a: nat, n: nat)
    requires i <= |list|
    ensures list[..i] + Free(list[i..], a, n) ==
            if i == |list| then list + [Run(a, n)]
            else
              var b := list[i];
              if b.start + b.len == a then
                if i + 1 < |list| && b.start + b.len + n == list[i + 1].start
                then list[..i] + [Run(b.start, b.len + n + list[i + 1].len)] + list[i + 2..]
                else list[i := Run(b.start, b.len + n)]
              else if b.start == a + n then list[i := Run(a, b.len + n)]
              else if b.start > a + n then list[..i] + [Run(a, n)] + list[i..]
              else list[..i + 1] + Free(list[i + 1..], a, n)
  {
    if i < |list| {
      var (b, rest) := (list[i], list[i..]);
      assert rest[0] == b && rest[1..] == list[i + 1..];
      if i + 1 < |list| { assert rest[1] == list[i + 1] && rest[2..] == list[i + 2..]; }
      var t := Free(rest[1..], a, n);
      assert list[..i] + ([b] + t) == list[..i + 1] + t;
    }
  }

  class PageList {
    var list: seq<Run>

    /** rt_page_init. */
    constructor (start: nat, n: nat)
      requires n != 0
      ensures list == [Run(start, n)]
    {
      list := [Run(start, n)];
    }

    method PageAlloc(npages: nat) returns (b: Option<nat>)
      modifies this
      ensures npages == 0 ==> b.None? && list == old(list)
      ensures npages > 0 ==> (list, b) == Alloc(old(list), npages)
    {
      hide Alloc;
      if npages == 0 { return None; }
      var prev := 0;
      assert list[0..] == list && list[..0] + Alloc(list, npages).0 == Alloc(list, npages).0;
      while prev < |list|
        invariant prev <= |list| && list == old(list)
        invariant Alloc(list, npages) == Glue(list[..prev], Alloc(list[prev..], npages))
      {
        var run := list[prev];
        AllocAt(list, prev, npages);
        if run.len > npages {
          list := list[prev := Run(run.start + npages, run.len - npages)];
          return Some(run.start);
        }
        if run.len == npages {
          list := list[..prev] + list[prev + 1..];
          return Some(run.start);
        }
        prev := prev + 1;
      }
      AllocAt(list, prev, npages);
      return None;
    }

    method PageFree(n: nat, npages: nat)
      requires npages != 0
      modifies this
      ensures list == Free(old(list), n, npages)
    {
      hide Free;
      var prev := 0;
      assert list[0..] == list;
      while prev < |list|
        invariant prev <= |list| && list == old(list)
        invariant Free(list, n, npages) == list[..prev] + Free(list[prev..], n, npages)
      {
        var b := list[prev];
        FreeAt(list, prev, n, npages);
        if b.start + b.len == n {
          list := list[prev := Run(b.start, b.len + npages)];
          if prev + 1 < |list| && b.start + b.len + npages == list[prev + 1].start {
            list := list[..prev] + [Run(b.start, b.len + npages + list[prev + 1].len)] + list[prev + 2..];
            assert list[..prev] == old(list)[..prev] && list[prev + 1..] == old(list)[prev + 2..];
          }
          return;
        }
        if b.start == n + npages {
          list := list[prev := Run(n, b.len + npages)];
          return;
        }
        if b.start > n + npages { break; }
        prev := prev + 1;
      }
      FreeAt(list, prev, n, npages);
      list := list[..prev] + [Run(n, npages)] + list[prev..];
    }
  }
}
