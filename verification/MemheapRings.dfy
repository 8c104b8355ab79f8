/** Item headers inside the memory they manage.

    An item is six words: magic, pool_ptr, next, prev, next_free, prev_free.  A ring links items through
    the words at offsets `f` and `f + 1`: the physical ring through next and prev, the free ring through
    next_free and prev_free.  The lemmas say what linking, unlinking and stamping do to both rings, for
    items that do not overlap. */
module MemheapRings {
  import opened Seqs
  import opened MemheapSpec

  type Memory = map<int, int>

  const MAGIC_AT := 0
  const POOL_AT := 1
  const NEXT := 2
  const PREV := 3
  const NEXT_FREE := 4
  const PREV_FREE := 5

  const MAGIC := 0x1ea01ea0

  /** The lowest bit of the magic word is the used bit. */
  function WithUsed(v: int): int { v / 2 * 2 + 1 }

  function WithoutUsed(v: int): int { v / 2 * 2 }

  function Word(m: Memory, a: int): int { if a in m then m[a] else 0 }

  /** One field of the item header at `a`. */
  function Field(m: Memory, a: int, o: int): int { Word(m, a + o) }

  function After(i: nat, n: nat): nat { if i + 1 < n then i + 1 else 0 }

  function Before(i: nat, n: nat): nat
    requires i < n
  {
    if i > 0 then i - 1 else n - 1
  }

  /** The items `s`, in this order, form a doubly linked ring. */
  ghost predicate Ring(m: Memory, s: seq<int>, f: int) {
    && 0 < |s|
    && (forall i | 0 <= i < |s| :: Field(m, s[i], f) == s[After(i, |s|)])
    && (forall i | 0 <= i < |s| :: Field(m, s[i], f + 1) == s[Before(i, |s|)])
  }

  lemma {:induction false} RingAt(m: Memory, s: seq<int>, f: int, i: nat)
    requires Ring(m, s, f) && i < |s|
    ensures Field(m, s[i], f) == s[After(i, |s|)] && Field(m, s[i], f + 1) == s[Before(i, |s|)]
  {
  }

  /** `w` tells which item a word belongs to, and the six words at `a` belong to item `a`. */
  ghost predicate Owns(w: int -> int, a: int) {
    w(a) == a && w(a + 1) == a && w(a + 2) == a && w(a + 3) == a && w(a + 4) == a && w(a + 5) == a
  }

  /** The items of `s` are distinct and do not overlap. */
  ghost predicate Apart(w: int -> int, s: seq<int>) {
    && (forall i | 0 <= i < |s| :: Owns(w, s[i]))
    && (forall i, j | 0 <= i < j < |s| :: s[i] != s[j])
  }

  /** Take item `x` out of its ring: its neighbours are linked to each other. */
  function Unlinked(m: Memory, x: int, f: int): Memory {
    var (nx, pv) := (Field(m, x, f), Field(m, x, f + 1));
    m[nx + f + 1 := pv][pv + f := nx]
  }

  /** Link item `n` into the ring behind item `p`. */
  function Linked(m: Memory, p: int, n: int, f: int): Memory {
    var nx := Field(m, p, f);
    m[n + f := nx][n + f + 1 := p][nx + f + 1 := n][p + f := n]
  }

  /** A fresh item header, marked free. */
  function Stamped(m: Memory, n: int, head: int): Memory {
    m[n + MAGIC_AT := MAGIC][n + POOL_AT := head]
  }

  // ---- neighbours after removing and inserting ----

  lemma {:induction false} RemovedAt(s: seq<int>, k: nat, i: nat)
    requires 1 < |s| && k < |s| && i < |s| - 1
    ensures var (t, j) := (Removed(s, k), if i < k then i else i + 1);
            && t[i] == s[j]
            && t[After(i, |t|)] == (if j == Before(k, |s|) then s[After(k, |s|)] else s[After(j, |s|)])
            && t[Before(i, |t|)] == (if j == After(k, |s|) then s[Before(k, |s|)] else s[Before(j, |s|)])
  {
  }

  lemma {:induction false} InsertedAt(s: seq<int>, k: nat, n: int, i: nat)
    requires k < |s| && i <= |s|
    ensures var (t, j) := (Inserted(s, k, n), if i <= k then i else i - 1);
            if i == k + 1 then t[i] == n && t[After(i, |t|)] == s[After(k, |s|)] && t[Before(i, |t|)] == s[k]
            else && t[i] == s[j]
                 && t[After(i, |t|)] == (if j == k then n else s[After(j, |s|)])
                 && t[Before(i, |t|)] == (if j == After(k, |s|) then n else s[Before(j, |s|)])
  {
  }

  // ---- what linking and unlinking do to the ring and to every other field ----

  lemma {:induction false} UnlinkedField(m: Memory, w: int -> int, x: int, f: int, a: int, o: int)
    requires 0 <= o < HEADER && 0 <= f && f + 1 < HEADER
    requires Owns(w, a) && Owns(w, Field(m, x, f)) && Owns(w, Field(m, x, f + 1))
    ensures Field(Unlinked(m, x, f), a, o) ==
            if o == f && a == Field(m, x, f + 1) then Field(m, x, f)
            else if o == f + 1 && a == Field(m, x, f) then Field(m, x, f + 1)
            else Field(m, a, o)
  {
  }

  lemma {:induction false} LinkedField(m: Memory, w: int -> int, p: int, n: int, f: int, a: int, o: int)
    requires 0 <= o < HEADER && 0 <= f && f + 1 < HEADER && p != n && Field(m, p, f) != n
    requires Owns(w, a) && Owns(w, p) && Owns(w, n) && Owns(w, Field(m, p, f))
    ensures Field(Linked(m, p, n, f), a, o) ==
            if o == f && a == p then n
            else if o == f && a == n then Field(m, p, f)
            else if o == f + 1 && a == n then p
            else if o == f + 1 && a == Field(m, p, f) then n
            else Field(m, a, o)
  {
  }

  lemma {:induction false} UnlinkedRing(m: Memory, w: int -> int, s: seq<int>, f: int, k: nat)
    requires Ring(m, s, f) && Apart(w, s) && 1 < |s| && k < |s| && 0 <= f && f + 1 < HEADER
    ensures Ring(Unlinked(m, s[k], f), Removed(s, k), f)
  {
    var m', t := Unlinked(m, s[k], f), Removed(s, k);
    forall i | 0 <= i < |t|
      ensures Field(m', t[i], f) == t[After(i, |t|)] && Field(m', t[i], f + 1) == t[Before(i, |t|)]
    {
      RemovedAt(s, k, i);
      UnlinkedField(m, w, s[k], f, t[i], f);
      UnlinkedField(m, w, s[k], f, t[i], f + 1);
    }
  }

  lemma {:induction false} LinkedRing(m: Memory, w: int -> int, s: seq<int>, f: int, k: nat, n: int)
    requires Ring(m, s, f) && Apart(w, s) && k < |s| && 0 <= f && f + 1 < HEADER
    requires Owns(w, n) && n !in s
    ensures Ring(Linked(m, s[k], n, f), Inserted(s, k, n), f)
  {
    var m', t := Linked(m, s[k], n, f), Inserted(s, k, n);
    forall i | 0 <= i < |t|
      ensures Field(m', t[i], f) == t[After(i, |t|)] && Field(m', t[i], f + 1) == t[Before(i, |t|)]
    {
      InsertedAt(s, k, n, i);
      LinkedField(m, w, s[k], n, f, t[i], f);
      LinkedField(m, w, s[k], n, f, t[i], f + 1);
    }
  }

  // ---- both rings and the marks of the items ----

  /** The memory holds the physical ring `phys` with marks `used`, and the ring `head`, `free`. */
  ghost predicate Shape(m: Memory, head: int, phys: seq<int>, used: seq<bool>, free: seq<int>) {
    && |used| == |phys|
    && Ring(m, phys, NEXT)
    && Ring(m, [head] + free, NEXT_FREE)
    && forall i | 0 <= i < |phys| ::
         Field(m, phys[i], MAGIC_AT) == MAGIC + (if used[i] then 1 else 0) && Field(m, phys[i], POOL_AT) == head
  }

  /** No two items in play overlap, apart from an item being on both rings. */
  ghost predicate Spread(w: int -> int, head: int, phys: seq<int>, free: seq<int>) {
    Apart(w, [head] + phys) && Apart(w, [head] + free)
  }

  lemma {:induction false} SpreadFacts(w: int -> int, head: int, phys: seq<int>, free: seq<int>)
    requires Spread(w, head, phys, free)
    ensures Owns(w, head) && head !in phys && head !in free
    ensures Apart(w, phys) && forall p | 0 <= p < |free| :: Owns(w, free[p])
  {
    var a, b := [head] + phys, [head] + free;
    assert a[0] == head && b[0] == head;
    assert forall i | 0 <= i < |phys| :: phys[i] == a[i + 1];
    assert forall i | 0 <= i < |free| :: free[i] == b[i + 1];
  }

  /** Every word that changed belongs to the header of an item. */
  ghost predicate Touched(m: Memory, m': Memory, w: int -> int) {
    forall x | Word(m', x) != Word(m, x) :: w(x) <= x < w(x) + HEADER
  }

  lemma {:induction false} TouchedTrans(m: Memory, m1: Memory, m': Memory, w: int -> int)
    requires Touched(m, m1, w) && Touched(m1, m', w)
    ensures Touched(m, m', w)
  {
  }

  lemma {:induction false} UnlinkedTouched(m: Memory, w: int -> int, x: int, f: int)
    requires 0 <= f && f + 1 < HEADER && Owns(w, Field(m, x, f)) && Owns(w, Field(m, x, f + 1))
    ensures Touched(m, Unlinked(m, x, f), w)
  {
  }

  lemma {:induction false} LinkedTouched(m: Memory, w: int -> int, p: int, n: int, f: int)
    requires 0 <= f && f + 1 < HEADER && Owns(w, p) && Owns(w, n) && Owns(w, Field(m, p, f))
    ensures Touched(m, Linked(m, p, n, f), w)
  {
  }

  lemma {:induction false} StampedFields(m: Memory, w: int -> int, n: int, head: int)
    requires Owns(w, n)
    ensures var m' := Stamped(m, n, head);
            && Touched(m, m', w) && Field(m', n, MAGIC_AT) == MAGIC && Field(m', n, POOL_AT) == head
            && (forall a, o | Owns(w, a) && a != n && 0 <= o < HEADER :: Field(m', a, o) == Field(m, a, o))
            && (forall a, o | Owns(w, a) && 2 <= o < HEADER :: Field(m', a, o) == Field(m, a, o))
  {
  }

  /** Memories that agree on every field in play. */
  lemma {:induction false} ShapeFrame(m: Memory, m': Memory, head: int, phys: seq<int>, used: seq<bool>, free: seq<int>)
    requires Shape(m, head, phys, used, free)
    requires forall i, o | 0 <= i < |phys| && 0 <= o < NEXT_FREE :: Field(m', phys[i], o) == Field(m, phys[i], o)
    requires forall i, o | 0 <= i < |free| + 1 && NEXT_FREE <= o < HEADER ::
             Field(m', ([head] + free)[i], o) == Field(m, ([head] + free)[i], o)
    ensures Shape(m', head, phys, used, free)
  {
  }

  /** A new physical item `n` behind item `k`. */
  lemma {:induction false} InsertPhys(m: Memory, w: int -> int, head: int, phys: seq<int>, used: seq<bool>,
          free: seq<int>, k: nat, n: int)
    requires Shape(m, head, phys, used, free) && Spread(w, head, phys, free) && k < |phys|
    requires Owns(w, n) && n !in phys && n != head
    ensures Shape(Linked(Stamped(m, n, head), phys[k], n, NEXT), head,
                  Inserted(phys, k, n), used[..k + 1] + [false] + used[k + 1..], free)
    ensures Touched(m, Linked(Stamped(m, n, head), phys[k], n, NEXT), w)
  {
    hide Owns, Word, Touched, Linked, Stamped;
    SpreadFacts(w, head, phys, free);
    var m1 := Stamped(m, n, head);
    var m', t, r := Linked(m1, phys[k], n, NEXT), Inserted(phys, k, n), [head] + free;
    StampedFields(m, w, n, head);
    ShapeFrame(m, m1, head, phys, used, free);
    LinkedRing(m1, w, phys, NEXT, k, n);
    assert Owns(w, phys[After(k, |phys|)]);
    LinkedTouched(m1, w, phys[k], n, NEXT);
    TouchedTrans(m, m1, m', w);
    forall i, o | 0 <= i < |r| && NEXT_FREE <= o < HEADER ensures Field(m', r[i], o) == Field(m1, r[i], o) {
      LinkedField(m1, w, phys[k], n, NEXT, r[i], o);
    }
    forall i, o | 0 <= i < |t| && 0 <= o < NEXT ensures Field(m', t[i], o) == Field(m1, t[i], o) {
      InsertedAt(phys, k, n, i);
      LinkedField(m1, w, phys[k], n, NEXT, t[i], o);
    }
  }

  /** Physical item `k` joins its neighbour before it. */
  lemma {:induction false} RemovePhys(m: Memory, w: int -> int, head: int, phys: seq<int>, used: seq<bool>,
          free: seq<int>, k: nat)
    requires Shape(m, head, phys, used, free) && Spread(w, head, phys, free) && k < |phys| && 1 < |phys|
    ensures Shape(Unlinked(m, phys[k], NEXT), head, Removed(phys, k), used[..k] + used[k + 1..], free)
    ensures Touched(m, Unlinked(m, phys[k], NEXT), w)
  {
    hide Owns, Word, Touched, Unlinked;
    SpreadFacts(w, head, phys, free);
    var m', t, r := Unlinked(m, phys[k], NEXT), Removed(phys, k), [head] + free;
    UnlinkedRing(m, w, phys, NEXT, k);
    assert Owns(w, phys[After(k, |phys|)]) && Owns(w, phys[Before(k, |phys|)]);
    UnlinkedTouched(m, w, phys[k], NEXT);
    forall i, o | 0 <= i < |r| && NEXT_FREE <= o < HEADER ensures Field(m', r[i], o) == Field(m, r[i], o) {
      UnlinkedField(m, w, phys[k], NEXT, r[i], o);
    }
    forall i, o | 0 <= i < |t| && 0 <= o < NEXT ensures Field(m', t[i], o) == Field(m, t[i], o) {
      RemovedAt(phys, k, i);
      UnlinkedField(m, w, phys[k], NEXT, t[i], o);
    }
  }

  lemma {:induction false} InsertFree(m: Memory, w: int -> int, head: int, phys: seq<int>, used: seq<bool>,
          free: seq<int>, n: int)
    requires Shape(m, head, phys, used, free) && Spread(w, head, phys, free)
    requires Owns(w, n) && n !in free && n != head
    ensures Shape(Linked(m, head, n, NEXT_FREE), head, phys, used, [n] + free)
    ensures Touched(m, Linked(m, head, n, NEXT_FREE), w)
  {
    SpreadFacts(w, head, phys, free);
    var m', r := Linked(m, head, n, NEXT_FREE), [head] + free;
    LinkedRing(m, w, r, NEXT_FREE, 0, n);
    assert Inserted(r, 0, n) == [head] + ([n] + free);
    forall i, o | 0 <= i < |phys| && 0 <= o < NEXT_FREE ensures Field(m', phys[i], o) == Field(m, phys[i], o) {
      LinkedField(m, w, head, n, NEXT_FREE, phys[i], o);
    }
  }

  lemma {:induction false} RemoveFree(m: Memory, w: int -> int, head: int, phys: seq<int>, used: seq<bool>,
          free: seq<int>, p: nat)
    requires Shape(m, head, phys, used, free) && Spread(w, head, phys, free) && p < |free|
    ensures Shape(Unlinked(m, free[p], NEXT_FREE), head, phys, used, Removed(free, p))
    ensures Touched(m, Unlinked(m, free[p], NEXT_FREE), w)
  {
    SpreadFacts(w, head, phys, free);
    var m', r := Unlinked(m, free[p], NEXT_FREE), [head] + free;
    UnlinkedRing(m, w, r, NEXT_FREE, p + 1);
    assert r[p + 1] == free[p] && Owns(w, r[After(p + 1, |r|)]) && Owns(w, r[Before(p + 1, |r|)]);
    assert Removed(r, p + 1) == [head] + Removed(free, p);
    forall i, o | 0 <= i < |phys| && 0 <= o < NEXT_FREE ensures Field(m', phys[i], o) == Field(m, phys[i], o) {
      UnlinkedField(m, w, free[p], NEXT_FREE, phys[i], o);
    }
  }

  /** The used bit of physical item `k` set to `u`. */
  lemma {:induction false} SetMark(m: Memory, w: int -> int, head: int, phys: seq<int>, used: seq<bool>, free: seq<int>,
          k: nat, u: bool)
    requires Shape(m, head, phys, used, free) && Spread(w, head, phys, free) && k < |phys|
    ensures Shape(m[phys[k] + MAGIC_AT := MAGIC + (if u then 1 else 0)], head, phys, used[k := u], free)
    ensures Touched(m, m[phys[k] + MAGIC_AT := MAGIC + (if u then 1 else 0)], w)
  {
    SpreadFacts(w, head, phys, free);
    var m' := m[phys[k] + MAGIC_AT := MAGIC + (if u then 1 else 0)];
    forall a, o | Owns(w, a) && 0 < o < HEADER ensures Field(m', a, o) == Field(m, a, o) {}
    var r := [head] + free;
    forall i | 0 <= i < |r| ensures Owns(w, r[i]) {}
  }

  /** Clearing the free links of an item that is not on the free ring. */
  lemma {:induction false} ClearLinks(m: Memory, w: int -> int, head: int, phys: seq<int>, used: seq<bool>,
          free: seq<int>, a: int)
    requires Shape(m, head, phys, used, free) && Spread(w, head, phys, free)
    requires Owns(w, a) && a !in free && a != head
    ensures Shape(m[a + NEXT_FREE := NULL][a + PREV_FREE := NULL], head, phys, used, free)
    ensures Touched(m, m[a + NEXT_FREE := NULL][a + PREV_FREE := NULL], w)
  {
    SpreadFacts(w, head, phys, free);
    ShapeFrame(m, m[a + NEXT_FREE := NULL][a + PREV_FREE := NULL], head, phys, used, free);
  }
}
