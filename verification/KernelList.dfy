/** The doubly linked lists of include/rtservice.h. */
module KernelList {
  import opened Seqs

  // Timers, waiting lists and ready queues are made of these.  A list is a ring through its head; the ring
  // as a sequence starts with the head, so that the rest of it is the list that the other modules keep as
  // a sequence.

  type Node = nat

  type Links = map<Node, Node>

  function Succ(i: nat, n: nat): nat
    requires i < n
  {
    if i + 1 == n then 0 else i + 1
  }

  /** Node `i` of the ring and the one behind it point at each other. */
  ghost predicate LinkAt(next: Links, prev: Links, ring: seq<Node>, i: nat) {
    && i < |ring| && ring[i] in next && ring[Succ(i, |ring|)] in prev
    && next[ring[i]] == ring[Succ(i, |ring|)] && prev[ring[Succ(i, |ring|)]] == ring[i]
  }

  ghost predicate Ring(next: Links, prev: Links, ring: seq<Node>) {
    ring != [] && Distinct(ring) && forall i: nat | i < |ring| :: LinkAt(next, prev, ring, i)
  }

  /** The list of a ring: all but the head. */
  function Items(ring: seq<Node>): seq<Node>
    requires ring != []
  {
    ring[1..]
  }

  // ---- what the assignments do ----

  lemma {:induction false} InsertedAt(ring: seq<Node>, i: nat, n: Node)
    requires i < |ring| && Distinct(ring) && n !in ring
    ensures var s := Inserted(ring, i, n);
            && |s| == |ring| + 1 && Distinct(s)
            && (forall j | 0 <= j <= i :: s[j] == ring[j]) && s[i + 1] == n
            && (forall j | i + 1 < j < |s| :: s[j] == ring[j - 1])
            && (forall j | 0 <= j < |ring| :: ring[j] != n)
            && (forall j, k | 0 <= j < k < |ring| :: ring[j] != ring[k])
  {
  }

  lemma {:induction false} InsertedRing(next: Links, prev: Links, ring: seq<Node>, i: nat, n: Node)
    requires Ring(next, prev, ring) && i < |ring| && n !in ring
    ensures var (l, r) := (ring[i], ring[Succ(i, |ring|)]);
            Ring(next[n := r][l := n], prev[r := n][n := l], Inserted(ring, i, n))
  {
    hide Inserted;
    var (l, r, s) := (ring[i], ring[Succ(i, |ring|)], Inserted(ring, i, n));
    var (next', prev') := (next[n := r][l := n], prev[r := n][n := l]);
    InsertedAt(ring, i, n);
    forall j: nat | j < |s| ensures LinkAt(next', prev', s, j) {
      var u := Succ(j, |s|);
      assert s[u] == if u <= i then ring[u] else if u == i + 1 then n else ring[u - 1];
      if j < i {
        assert LinkAt(next, prev, ring, j);
      } else if j > i + 1 {
        assert LinkAt(next, prev, ring, j - 1);
      }
    }
  }

  lemma {:induction false} RemovedRing(next: Links, prev: Links, ring: seq<Node>, i: nat)
    requires Ring(next, prev, ring) && 1 <= i < |ring|
    ensures ring[i] in next && ring[i] in prev
    ensures var (n, l, r) := (ring[i], prev[ring[i]], next[ring[i]]);
            var (next', prev') := (next[l := r][n := n], prev[r := l][n := n]);
            Ring(next', prev', Removed(ring, i)) && Ring(next', prev', [n])
  {
    assert LinkAt(next, prev, ring, i) && LinkAt(next, prev, ring, i - 1);
    var (n, l, r, s) := (ring[i], ring[i - 1], ring[Succ(i, |ring|)], Removed(ring, i));
    var (next', prev') := (next[l := r][n := n], prev[r := l][n := n]);
    assert forall j | 0 <= j < |s| :: s[j] == if j < i then ring[j] else ring[j + 1];
    forall j: nat | j < |s| ensures LinkAt(next', prev', s, j) {
      if j < i - 1 {
        assert LinkAt(next, prev, ring, j);
      } else if j > i - 1 {
        assert LinkAt(next, prev, ring, j + 1);
      }
    }
    assert LinkAt(next', prev', [n], 0);
  }

  /** Another list does not notice. */
  lemma {:induction false} OtherRing(next: Links, prev: Links, next': Links, prev': Links, ring: seq<Node>)
    requires Ring(next, prev, ring)
    requires forall x | x in ring && x in next :: x in next' && next'[x] == next[x]
    requires forall x | x in ring && x in prev :: x in prev' && prev'[x] == prev[x]
    ensures Ring(next', prev', ring)
  {
    forall i: nat | i < |ring| ensures LinkAt(next', prev', ring, i) {
      assert LinkAt(next, prev, ring, i);
      assert ring[i] in ring && ring[Succ(i, |ring|)] in ring;
    }
  }

  // ---- in place ----

  class Lists {
    var next: Links
    var prev: Links

    constructor ()
      ensures next == map[] && prev == map[]
    {
      next, prev := map[], map[];
    }

    /** rt_list_init. */
    method Init(l: Node)
      modifies this
      ensures Ring(next, prev, [l]) && next == old(next)[l := l] && prev == old(prev)[l := l]
    {
      next, prev := next[l := l], prev[l := l];
      assert LinkAt(next, prev, [l], 0);
    }

    /** rt_list_insert_after: behind node `i` of the ring. */
    method InsertAfter(l: Node, n: Node, ghost ring: seq<Node>, ghost i: nat)
      requires Ring(next, prev, ring) && i < |ring| && ring[i] == l && n !in ring
      modifies this
      ensures Ring(next, prev, Inserted(ring, i, n))
      ensures forall other | Ring(old(next), old(prev), other) && n !in other
              && (forall x | x in other :: x !in ring) :: Ring(next, prev, other)
    {
      hide Ring, Inserted;
      LinksOf(next, prev, ring, i);
      InsertedRing(next, prev, ring, i, n);
      var r := next[l];
      prev := prev[r := n];
      next := next[n := r];
      next := next[l := n];
      prev := prev[n := l];
      OtherRings(old(next), old(prev), next, prev, ring, {n});
    }

    /** rt_list_insert_before: on the head `i` is 0 and the node goes to the end. */
    method InsertBefore(l: Node, n: Node, ghost ring: seq<Node>, ghost i: nat)
      requires Ring(next, prev, ring) && i < |ring| && ring[i] == l && n !in ring
      modifies this
      ensures i == 0 ==> Ring(next, prev, ring + [n])
      ensures i > 0 ==> Ring(next, prev, ring[..i] + [n] + ring[i..])
      ensures forall other | Ring(old(next), old(prev), other) && n !in other
              && (forall x | x in other :: x !in ring) :: Ring(next, prev, other)
    {
      hide Ring;
      ghost var p := if i == 0 then |ring| - 1 else i - 1;
      LinksOf(next, prev, ring, p);
      InsertedRing(next, prev, ring, p, n);
      assert i == 0 ==> Inserted(ring, p, n) == ring + [n];
      var q := prev[l];
      next := next[q := n];
      prev := prev[n := q];
      prev := prev[l := n];
      next := next[n := l];
      assert next == old(next)[n := l][q := n] && prev == old(prev)[l := n][n := q];
      OtherRings(old(next), old(prev), next, prev, ring, {n});
    }

    /** rt_list_remove: the node leaves its list, if it is on one, and is a list of its own. */
    method Remove(n: Node, ghost ring: seq<Node>, ghost i: nat)
      requires Ring(next, prev, ring) && i < |ring| && ring[i] == n && (1 <= i || |ring| == 1)
      modifies this
      ensures Ring(next, prev, [n]) && (i > 0 ==> Ring(next, prev, Removed(ring, i)))
      ensures forall other | Ring(old(next), old(prev), other) && (forall x | x in other :: x !in ring) ::
              Ring(next, prev, other)
    {
      hide Ring, Removed;
      LinksOf(next, prev, ring, i);
      if i > 0 {
        LinksOf(next, prev, ring, i - 1);
        RemovedRing(next, prev, ring, i);
      } else {
        assert ring == [n];
      }
      var r, l := next[n], prev[n];
      prev := prev[r := l];
      next := next[l := r];
      next := next[n := n];
      prev := prev[n := n];
      assert i == 0 ==> next == old(next) && prev == old(prev);
      OtherRings(old(next), old(prev), next, prev, ring, {});
    }

    /** rt_list_isempty. */
    method IsEmpty(l: Node, ghost ring: seq<Node>) returns (empty: bool)
      requires Ring(next, prev, ring) && ring[0] == l
      ensures empty == (Items(ring) == [])
    {
      assert LinkAt(next, prev, ring, 0);
      empty := next[l] == l;
    }
  }

  lemma {:induction false} LinksOf(next: Links, prev: Links, ring: seq<Node>, i: nat)
    requires Ring(next, prev, ring) && i < |ring|
    ensures var (l, r) := (ring[i], ring[Succ(i, |ring|)]);
            l in ring && r in ring && l in next && r in prev && next[l] == r && prev[r] == l
  {
    assert LinkAt(next, prev, ring, i);
  }

  lemma {:induction false} OtherRings(next: Links, prev: Links, next': Links, prev': Links, ring: seq<Node>,
          more: set<Node>)
    requires forall x | x !in ring && x !in more && x in next :: x in next' && next'[x] == next[x]
    requires forall x | x !in ring && x !in more && x in prev :: x in prev' && prev'[x] == prev[x]
    ensures forall other | Ring(next, prev, other) && (forall x | x in other :: x !in ring && x !in more) ::
            Ring(next', prev', other)
  {
    hide Ring;
    forall other | Ring(next, prev, other) && (forall x | x in other :: x !in ring && x !in more)
      ensures Ring(next', prev', other)
    {
      OtherRing(next, prev, next', prev', other);
    }
  }
}
