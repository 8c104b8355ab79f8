/** The lists of ThreadLists as the linked lists of include/rtservice.h: each queue and waiting list is a
    ring through its head, and the one list node of a thread is on the ring of its place. */
module ThreadNodes {
  import opened Seqs
  import opened SortedList
  import K = KernelList
  import I = IpcList
  import S = Scheduler
  import T = ThreadLists

  // ---- rows of threads as rings ----

  function Head(k: nat): K.Node { 2 * k }

  function Link(t: Id): K.Node { 2 * t + 1 }

  function RingOf(k: nat, row: seq<Id>): seq<K.Node> {
    [Head(k)] + seq(|row|, i requires 0 <= i < |row| => Link(row[i]))
  }

  ghost predicate InRows(rows: seq<seq<Id>>, t: Id) { exists k :: 0 <= k < |rows| && t in rows[k] }

  /** No thread twice. */
  ghost predicate Apart(rows: seq<seq<Id>>) {
    && (forall k | 0 <= k < |rows| :: Distinct(rows[k]))
    && forall j, k, t | 0 <= j < |rows| && 0 <= k < |rows| && t in rows[j] && t in rows[k] :: j == k
  }

  /** The links hold the rows, and a thread on none of them is a ring of its own. */
  ghost predicate Held(next: K.Links, prev: K.Links, rows: seq<seq<Id>>, threads: set<Id>) {
    && Apart(rows) && (forall k, t | 0 <= k < |rows| && t in rows[k] :: t in threads)
    && (forall k: nat | k < |rows| :: K.Ring(next, prev, RingOf(k, rows[k])))
    && forall t | t in threads && !InRows(rows, t) :: K.Ring(next, prev, [Link(t)])
  }

  lemma {:induction false} RingMember(k: nat, row: seq<Id>, x: K.Node)
    ensures x in RingOf(k, row) <==> x == Head(k) || exists t :: t in row && x == Link(t)
  {
    var ring := RingOf(k, row);
    if x in ring && x != Head(k) {
      var i :| 0 <= i < |ring| && ring[i] == x;
      assert row[i - 1] in row && x == Link(row[i - 1]);
    }
    if t :| t in row && x == Link(t) {
      var i :| 0 <= i < |row| && row[i] == t;
      assert ring[i + 1] == x;
    }
  }

  lemma {:induction false} RingsApart(rows: seq<seq<Id>>, j: nat, k: nat, x: K.Node)
    requires Apart(rows) && j < |rows| && k < |rows| && j != k && x in RingOf(j, rows[j])
    ensures x !in RingOf(k, rows[k])
  {
    RingMember(j, rows[j], x);
    RingMember(k, rows[k], x);
  }

  lemma {:induction false} DelAt(row: seq<Id>, i: nat)
    requires Distinct(row) && i < |row|
    ensures Del(row, row[i]) == row[..i] + row[i + 1..]
    decreases i
  {
    if i == 0 {
      DelHead(row);
    } else {
      DelAt(row[1..], i - 1);
      assert row[1..][..i - 1] == row[1..i] && row[1..][i..] == row[i + 1..];
      assert [row[0]] + row[1..i] == row[..i];
    }
  }

  lemma {:induction false} RowsLess(rows: seq<seq<Id>>, t: Id)
    requires Apart(rows)
    ensures Apart(DelRows(rows, t)) && !InRows(DelRows(rows, t), t)
    ensures forall k, u | 0 <= k < |rows| :: u in DelRows(rows, t)[k] <==> u in rows[k] && u != t
    ensures forall k | 0 <= k < |rows| && t !in rows[k] :: DelRows(rows, t)[k] == rows[k]
  {
    hide Distinct, Del;
    var r := DelRows(rows, t);
    forall k | 0 <= k < |rows| ensures Distinct(r[k]) { S.DelDistinct(rows[k], t); }
    forall k, u | 0 <= k < |rows| ensures u in r[k] <==> u in rows[k] && u != t { DelMember(rows[k], t); }
    forall k | 0 <= k < |rows| && t !in rows[k] ensures r[k] == rows[k] { DelAbsent(rows[k], t); }
  }

  /** Where the node of `t` is: its ring and the place there. */
  ghost function RingAt(rows: seq<seq<Id>>, t: Id): (r: (seq<K.Node>, nat))
    ensures r.1 < |r.0| && r.0[r.1] == Link(t) && (r.1 > 0 || |r.0| == 1)
  {
    if InRows(rows, t) then
      var k :| 0 <= k < |rows| && t in rows[k];
      var i :| 0 <= i < |rows[k]| && rows[k][i] == t;
      (RingOf(k, rows[k]), i + 1)
    else ([Link(t)], 0)
  }

  lemma {:induction false} RingAtIs(rows: seq<seq<Id>>, t: Id, k: nat)
    requires Apart(rows) && k < |rows| && t in rows[k]
    ensures var (ring, i) := RingAt(rows, t);
            ring == RingOf(k, rows[k]) && i > 0 && Removed(ring, i) == RingOf(k, Del(rows[k], t))
  {
    hide Del;
    var (ring, i) := RingAt(rows, t);
    var row := rows[k];
    assert InRows(rows, t);
    assert ring == RingOf(k, row);
    assert ring[i] == Link(row[i - 1]);
    DelAt(row, i - 1);
    assert Removed(ring, i) == RingOf(k, row[..i - 1] + row[i..]);
  }

  /** Rings that a change at the ring of `t` does not touch. */
  ghost predicate Untouched(next: K.Links, prev: K.Links, next': K.Links, prev': K.Links, ring: seq<K.Node>) {
    forall other | K.Ring(next, prev, other) && (forall x | x in other :: x !in ring) :: K.Ring(next', prev', other)
  }

  lemma {:induction false} UnlinkHolds(
    next: K.Links, prev: K.Links, next': K.Links, prev': K.Links, rows: seq<seq<Id>>, threads: set<Id>, t: Id)
    requires Held(next, prev, rows, threads) && t in threads
    requires var (ring, i) := RingAt(rows, t);
             && K.Ring(next', prev', [Link(t)]) && (i > 0 ==> K.Ring(next', prev', Removed(ring, i)))
             && Untouched(next, prev, next', prev', ring)
    ensures Held(next', prev', DelRows(rows, t), threads)
  {
    hide K.Ring, RingOf, Distinct, Removed;
    RowsLess(rows, t);
    var (ring, rows') := (RingAt(rows, t).0, DelRows(rows, t));
    forall k: nat | k < |rows| ensures K.Ring(next', prev', RingOf(k, rows'[k])) {
      if t in rows[k] {
        RingAtIs(rows, t, k);
      } else {
        ElsewhereRow(rows, t, k);
      }
    }
    forall u | u in threads && !InRows(rows', u) ensures K.Ring(next', prev', [Link(u)]) {
      if u != t {
        assert forall k | 0 <= k < |rows| && u in rows[k] :: u in rows'[k];
        ElsewhereLone(rows, t, u);
      }
    }
  }

  lemma {:induction false} ElsewhereRow(rows: seq<seq<Id>>, t: Id, k: nat)
    requires Apart(rows) && k < |rows| && t !in rows[k]
    ensures forall x | x in RingOf(k, rows[k]) :: x !in RingAt(rows, t).0
  {
    hide RingOf;
    forall x | x in RingOf(k, rows[k]) ensures x !in RingAt(rows, t).0 {
      RingMember(k, rows[k], x);
      if j :| 0 <= j < |rows| && t in rows[j] {
        RingAtIs(rows, t, j);
        RingsApart(rows, k, j, x);
      }
    }
  }

  lemma {:induction false} ElsewhereLone(rows: seq<seq<Id>>, t: Id, u: Id)
    requires Apart(rows) && u != t && !InRows(rows, u)
    ensures forall x | x in [Link(u)] :: x !in RingAt(rows, t).0
  {
    hide RingOf;
    if j :| 0 <= j < |rows| && t in rows[j] {
      RingAtIs(rows, t, j);
      RingMember(j, rows[j], Link(u));
    }
  }

  lemma {:induction false} LinkHolds(
    next: K.Links, prev: K.Links, next': K.Links, prev': K.Links, rows: seq<seq<Id>>, threads: set<Id>, t: Id, k: nat,
        row: seq<Id>)
    requires Held(next, prev, rows, threads) && t in threads && !InRows(rows, t) && k < |rows|
    requires Distinct(row) && forall u :: u in row <==> u in rows[k] || u == t
    requires K.Ring(next', prev', RingOf(k, row))
    requires forall other | K.Ring(next, prev, other) && Link(t) !in other
             && (forall x | x in other :: x !in RingOf(k, rows[k])) ::
               K.Ring(next', prev', other)
    ensures Held(next', prev', rows[k := row], threads)
  {
    hide K.Ring, RingOf, Distinct;
    var rows' := rows[k := row];
    assert forall j | 0 <= j < |rows| :: t !in rows[j];
    forall j: nat | j < |rows| ensures K.Ring(next', prev', RingOf(j, rows'[j])) {
      if j != k {
        forall x | x in RingOf(j, rows[j]) ensures x !in RingOf(k, rows[k]) { RingsApart(rows, j, k, x); }
        RingMember(j, rows[j], Link(t));
      }
    }
    forall u | u in threads && !InRows(rows', u) ensures K.Ring(next', prev', [Link(u)]) {
      assert u !in rows'[k];
      assert forall j | 0 <= j < |rows| && u in rows[j] :: u in rows'[j];
      RingMember(k, rows[k], Link(u));
    }
  }

  lemma {:induction false} RingPlus(k: nat, row: seq<Id>, i: nat, t: Id)
    requires i <= |row|
    ensures var ring := RingOf(k, row);
            RingOf(k, row[..i] + [t] + row[i..]) ==
                if i == |row| then ring + [Link(t)] else ring[..i + 1] + [Link(t)] + ring[i + 1..]
  {
  }

  lemma {:induction false} RowPlus(row: seq<Id>, i: nat, t: Id)
    requires Distinct(row) && i <= |row| && t !in row
    ensures var r := row[..i] + [t] + row[i..]; Distinct(r) && forall u :: u in r <==> u in row || u == t
  {
    var r := row[..i] + [t] + row[i..];
    forall u ensures u in r <==> u in row || u == t {
      if u in row {
        var j :| 0 <= j < |row| && row[j] == u;
        assert r[if j < i then j else j + 1] == u;
      }
    }
    assert forall j | 0 <= j < |row| :: row[j] != t;
  }

  /** rt_list_remove of a thread's node, wherever it is. */
  method Unlink(links: K.Lists, t: Id, ghost rows: seq<seq<Id>>, ghost threads: set<Id>)
    requires Held(links.next, links.prev, rows, threads) && t in threads
    modifies links
    ensures Held(links.next, links.prev, DelRows(rows, t), threads)
  {
    hide K.Ring, RingOf, Removed, Distinct;
    ghost var (ring, i) := RingAt(rows, t);
    if k :| 0 <= k < |rows| && t in rows[k] { RingAtIs(rows, t, k); }
    ghost var (next, prev) := (links.next, links.prev);
    links.Remove(Link(t), ring, i);
    UnlinkHolds(next, prev, links.next, links.prev, rows, threads, t);
  }

  /** rt_list_insert_before of a thread's node at position `i` of row `k`; at the end it goes before the
      head. */
  method LinkBefore(links: K.Lists, at: K.Node, t: Id, ghost rows: seq<seq<Id>>, ghost threads: set<Id>, ghost k: nat,
          ghost i: nat)
    requires Held(links.next, links.prev, rows, threads) && t in threads && !InRows(rows, t) && k < |rows|
    requires i <= |rows[k]| && at == if i == |rows[k]| then Head(k) else Link(rows[k][i])
    modifies links
    ensures Held(links.next, links.prev, rows[k := rows[k][..i] + [t] + rows[k][i..]], threads)
  {
    hide K.Ring, Distinct;
    ghost var (row, ring, next, prev) := (rows[k], RingOf(k, rows[k]), links.next, links.prev);
    assert t !in row;
    RingMember(k, row, Link(t));
    links.InsertBefore(at, Link(t), ring, if i == |row| then 0 else i + 1);
    RingPlus(k, row, i, t);
    RowPlus(row, i, t);
    LinkHolds(next, prev, links.next, links.prev, rows, threads, t, k, row[..i] + [t] + row[i..]);
  }

  /** rt_list_insert_after the head of row `k`. */
  method LinkFirst(links: K.Lists, t: Id, ghost rows: seq<seq<Id>>, ghost threads: set<Id>, k: nat)
    requires Held(links.next, links.prev, rows, threads) && t in threads && !InRows(rows, t) && k < |rows|
    modifies links
    ensures Held(links.next, links.prev, rows[k := [t] + rows[k]], threads)
  {
    hide K.Ring, Distinct;
    ghost var (row, ring, next, prev) := (rows[k], RingOf(k, rows[k]), links.next, links.prev);
    assert t !in row;
    RingMember(k, row, Link(t));
    links.InsertAfter(Head(k), Link(t), ring, 0);
    assert row[..0] + [t] + row[0..] == [t] + row;
    assert Inserted(ring, 0, Link(t)) == RingOf(k, [t] + row);
    RowPlus(row, 0, t);
    LinkHolds(next, prev, links.next, links.prev, rows, threads, t, k, [t] + row);
  }

  ghost predicate Lone(next: K.Links, prev: K.Links, x: K.Node) {
    x in next && x in prev && next[x] == x && prev[x] == x
  }

  lemma {:induction false} LoneRing(next: K.Links, prev: K.Links, x: K.Node)
    requires Lone(next, prev, x)
    ensures K.Ring(next, prev, [x])
  {
    assert K.LinkAt(next, prev, [x], 0);
  }

  /** rt_list_init of `n` list heads and of the threads' nodes. */
  method SetUp(n: nat, ids: seq<Id>) returns (links: K.Lists)
    ensures fresh(links) && Held(links.next, links.prev, seq(n, _ => []), set t | t in ids)
  {
    hide K.Ring, Distinct;
    links := new K.Lists();
    for k := 0 to n
      invariant fresh(links) && forall j: nat | j < k :: Lone(links.next, links.prev, Head(j))
    {
      links.Init(Head(k));
    }
    for i := 0 to |ids|
      invariant fresh(links) && forall j: nat | j < n :: Lone(links.next, links.prev, Head(j))
      invariant forall j | 0 <= j < i :: Lone(links.next, links.prev, Link(ids[j]))
    {
      links.Init(Link(ids[i]));
    }
    ghost var rows: seq<seq<Id>> := seq(n, _ => []);
    assert Distinct<Id>([]) by { NoneTwice(); }
    forall k: nat | k < n ensures K.Ring(links.next, links.prev, RingOf(k, rows[k])) {
      LoneRing(links.next, links.prev, Head(k));
      assert RingOf(k, rows[k]) == [Head(k)];
    }
    forall t | t in ids ensures K.Ring(links.next, links.prev, [Link(t)]) { LoneRing(links.next, links.prev, Link(t)); }
  }

  lemma {:induction false} NoneTwice()
    ensures Distinct<Id>([])
  {
  }

  // ---- the places of ThreadLists ----

  /** The ready queues, the waiting lists and the ended threads. */
  ghost function RowsOf(w: T.World): seq<seq<Id>> { w.sched.queues + w.lists + [w.defunct] }

  ghost function PlaceOf(w: T.World, k: nat): T.Place {
    var n := |w.sched.queues|;
    if k < n then T.Queue(k) else if k < n + |w.lists| then T.List(k - n) else T.Defunct
  }

  ghost predicate Represents(next: K.Links, prev: K.Links, w: T.World) {
    Held(next, prev, RowsOf(w), w.sched.threads.Keys)
  }

  lemma {:induction false} RowPlace(w: T.World, k: nat, t: Id)
    requires k < |RowsOf(w)|
    ensures t in RowsOf(w)[k] <==> T.At(w, PlaceOf(w, k), t)
  {
  }

  lemma {:induction false} RowsApart(w: T.World)
    requires T.Inv(w)
    ensures Apart(RowsOf(w)) && forall k, t | 0 <= k < |RowsOf(w)| && t in RowsOf(w)[k] :: t in w.sched.threads
  {
    hide S.Inv, Distinct, RowsOf, T.At;
    var rows := RowsOf(w);
    forall k | 0 <= k < |rows| ensures Distinct(rows[k]) { RowDistinct(w, k); }
    forall j, k, t | 0 <= j < |rows| && 0 <= k < |rows| && t in rows[j] && t in rows[k] ensures j == k {
      RowPlace(w, j, t);
      RowPlace(w, k, t);
      T.OnePlace(w, t);
      PlacesDiffer(w, j, k);
    }
    forall k, t | 0 <= k < |rows| && t in rows[k] ensures t in w.sched.threads {
      RowPlace(w, k, t);
      T.AtPlaced(w, PlaceOf(w, k), t);
    }
  }

  lemma {:induction false} PlacesDiffer(w: T.World, j: nat, k: nat)
    requires j < |RowsOf(w)| && k < |RowsOf(w)| && PlaceOf(w, j) == PlaceOf(w, k)
    ensures j == k
  {
  }

  lemma {:induction false} RowDistinct(w: T.World, k: nat)
    requires T.Inv(w) && k < |RowsOf(w)|
    ensures Distinct(RowsOf(w)[k])
  {
    hide S.MapOk, S.Flagged, Distinct;
  }

  lemma {:induction false} RowsWithout(w: T.World, t: Id)
    ensures DelRows(RowsOf(w), t) == DelRows(w.sched.queues, t) + DelRows(w.lists, t) + [Del(w.defunct, t)]
  {
    hide Del;
  }

  lemma {:induction false} NotRow(w: T.World, t: Id)
    requires T.Inv(w)
    ensures !T.Stands(w, t, S.Ready) ==> DelRows(w.sched.queues, t) == w.sched.queues
    ensures T.Stands(w, t, S.Ready) ==>
              var p := w.sched.threads[t].prio;
              p < |w.sched.queues| && DelRows(w.sched.queues, t) == w.sched.queues[p := Del(w.sched.queues[p], t)]
    ensures !T.Stands(w, t, S.Suspended) ==> DelRows(w.lists, t) == w.lists
    ensures !T.Stands(w, t, S.Closed) ==> Del(w.defunct, t) == w.defunct
  {
    hide S.Inv, Distinct, Del;
    var (q, r) := (w.sched.queues, DelRows(w.sched.queues, t));
    T.OnePlace(w, t);
    S.InvShape(w.sched);
    forall p: nat | p < |q| && !(T.Stands(w, t, S.Ready) && w.sched.threads[t].prio == p) ensures r[p] == q[p] {
      assert !T.At(w, T.Queue(p), t);
      DelAbsent(q[p], t);
    }
    if !T.Stands(w, t, S.Suspended) {
      forall l: nat | l < |w.lists| ensures DelRows(w.lists, t)[l] == w.lists[l] {
        assert !T.On(w, l, t);
        DelAbsent(w.lists[l], t);
      }
    }
    if !T.Stands(w, t, S.Closed) { DelAbsent(w.defunct, t); }
  }

  /** In `w'` thread `t` stands at the end of queue `p` and nowhere else; all else is as in `w`. */
  ghost predicate ToEnd(w: T.World, t: Id, p: nat, w': T.World) {
    var rows := DelRows(RowsOf(w), t);
    && p < |rows| && RowsOf(w') == rows[p := rows[p] + [t]]
    && w'.sched.threads.Keys == w.sched.threads.Keys
  }

  lemma {:induction false} ResumeRows(w: T.World, t: Id)
    requires T.Inv(w) && T.Stands(w, t, S.Suspended)
    ensures T.Shaped(w, t) && ToEnd(w, t, w.sched.threads[t].prio, T.Resume(w, t).0)
  {
    hide S.Inv, Distinct, Del, S.Raise;
    T.ShapedIs(w, t);
    RowsWithout(w, t);
    NotRow(w, t);
    T.InsertStats(w.sched, t);
    InsertQueues(w.sched, t);
  }

  lemma {:induction false} InsertQueues(s: S.Sched, t: Id)
    requires t in s.threads && s.threads[t].prio < |s.queues| <= 256 && |s.bytes| == 32
    ensures var p := s.threads[t].prio; S.Insert(s, t).queues == s.queues[p := s.queues[p] + [t]]
  {
  }

  lemma {:induction false} RemoveQueues(s: S.Sched, t: Id, k: S.Thread)
    requires t in s.threads && s.threads[t].prio == k.prio < |s.queues| <= 256 && |s.bytes| == 32
    ensures var p := k.prio; S.Remove(S.Put(s, t, k), t).queues == s.queues[p := Del(s.queues[p], t)]
  {
  }

  lemma {:induction false} BlockRows(w: T.World, t: Id, l: nat, flag: I.Flag)
    requires T.Inv(w) && T.Stands(w, t, S.Ready) && l < |w.lists|
    ensures T.Shaped(w, t)
    ensures var (k, rows) := (|w.sched.queues| + l, DelRows(RowsOf(w), t));
            && k < |rows| && rows[k] == w.lists[l]
            && RowsOf(T.Block(w, t, l, flag)) == rows[k := I.Queued(w.lists[l], t, T.Prios(w.sched), flag)]
            && T.Block(w, t, l, flag).sched.threads.Keys == w.sched.threads.Keys
  {
    hide S.Inv, Distinct, Del, S.Remove, I.Queued;
    T.ShapedIs(w, t);
    RowsWithout(w, t);
    NotRow(w, t);
    var k := w.sched.threads[t].(stat := S.Suspended);
    T.RemoveStats(w.sched, t, k);
    RemoveQueues(w.sched, t, k);
  }

  lemma {:induction false} DetachRows(w: T.World, t: Id, cleanup: bool)
    requires T.Inv(w) && (T.Stands(w, t, S.Ready) || T.Stands(w, t, S.Suspended))
    ensures T.Shaped(w, t)
    ensures var rows := DelRows(RowsOf(w), t);
            && |rows| == |RowsOf(w)| && rows[|rows| - 1] == w.defunct
            && RowsOf(T.Detach(w, t, cleanup)) == (if cleanup then rows[|rows| - 1 := [t] + w.defunct] else rows)
            && T.Detach(w, t, cleanup).sched.threads.Keys == w.sched.threads.Keys
  {
    hide S.Inv, Distinct, Del, S.Remove;
    T.ShapedIs(w, t);
    RowsWithout(w, t);
    NotRow(w, t);
    var k := w.sched.threads[t].(stat := S.Closed);
    if T.Stands(w, t, S.Ready) {
      T.RemoveStats(w.sched, t, k);
      RemoveQueues(w.sched, t, k);
    }
  }

  // ---- in place ----

  lemma {:induction false} UnlinkedRows(w: T.World, t: Id)
    requires T.Inv(w)
    ensures !InRows(DelRows(RowsOf(w), t), t)
  {
    hide T.Inv, RowsOf, Distinct;
    RowsApart(w);
    RowsLess(RowsOf(w), t);
  }

  /** rt_list_remove: the thread is in no place. */
  method Leave(links: K.Lists, t: Id, ghost w: T.World, ghost w': T.World)
    requires T.Inv(w) && t in w.sched.threads && Represents(links.next, links.prev, w)
    requires RowsOf(w') == DelRows(RowsOf(w), t) && w'.sched.threads.Keys == w.sched.threads.Keys
    modifies links
    ensures Represents(links.next, links.prev, w')
  {
    hide T.Inv, Held, RowsOf, DelRows;
    Unlink(links, t, RowsOf(w), w.sched.threads.Keys);
  }

  /** From wherever it is, a thread goes to the end of queue `p`. */
  method Move(links: K.Lists, t: Id, p: nat, ghost w: T.World, ghost w': T.World)
    requires T.Inv(w) && t in w.sched.threads && p < |w.sched.queues| && Represents(links.next, links.prev, w)
    requires ToEnd(w, t, p, w')
    modifies links
    ensures Represents(links.next, links.prev, w')
  {
    hide T.Inv, Held, RowsOf, DelRows;
    UnlinkedRows(w, t);
    ghost var rows := DelRows(RowsOf(w), t);
    Unlink(links, t, RowsOf(w), w.sched.threads.Keys);
    LinkBefore(links, Head(p), t, rows, w.sched.threads.Keys, p, |rows[p]|);
    assert rows[p][..|rows[p]|] + [t] + rows[p][|rows[p]|..] == rows[p] + [t];
  }

  /** rt_thread_resume: off the waiting list, to the end of the ready queue. */
  method Resume(links: K.Lists, t: Id, p: nat, ghost w: T.World)
    requires T.Inv(w) && T.Stands(w, t, S.Suspended) && p == w.sched.threads[t].prio
             && Represents(links.next, links.prev, w)
    modifies links
    ensures T.Shaped(w, t) && Represents(links.next, links.prev, T.Resume(w, t).0)
  {
    hide T.Inv, Held, RowsOf, T.Resume, DelRows;
    ResumeRows(w, t);
    Move(links, t, p, w, T.Resume(w, t).0);
  }

  /** The end of a thread: off its list, and first on the list of the ended ones. */
  method Detach(links: K.Lists, t: Id, cleanup: bool, defunct: nat, ghost w: T.World)
    requires T.Inv(w) && (T.Stands(w, t, S.Ready) || T.Stands(w, t, S.Suspended))
             && Represents(links.next, links.prev, w)
    requires defunct == |w.sched.queues| + |w.lists|
    modifies links
    ensures T.Shaped(w, t) && Represents(links.next, links.prev, T.Detach(w, t, cleanup))
  {
    hide T.Inv, Held, T.Detach, DelRows;
    DetachRows(w, t, cleanup);
    UnlinkedRows(w, t);
    ghost var rows := DelRows(RowsOf(w), t);
    Unlink(links, t, RowsOf(w), w.sched.threads.Keys);
    if cleanup { LinkFirst(links, t, rows, w.sched.threads.Keys, defunct); }
  }

  lemma {:induction false} Walk(next: K.Links, prev: K.Links, rows: seq<seq<Id>>, threads: set<Id>, k: nat, i: nat)
    requires Held(next, prev, rows, threads) && k < |rows| && i <= |rows[k]|
    ensures var at := if i == 0 then Head(k) else Link(rows[k][i - 1]);
            at in next && next[at] == if i == |rows[k]| then Head(k) else Link(rows[k][i])
  {
    hide Distinct, K.Ring;
    K.LinksOf(next, prev, RingOf(k, rows[k]), i);
  }

  /** rt_ipc_list_suspend: off the ready queue; to the end of the waiting list, or by a walk along its
      links before the first thread of lower priority. */
  method Suspend(links: K.Lists, t: Id, k: nat, flag: I.Flag, prio: map<Id, int>, ghost w: T.World)
    requires T.Inv(w) && T.Stands(w, t, S.Ready) && |w.sched.queues| <= k < |w.sched.queues| + |w.lists|
    requires prio == T.Prios(w.sched) && Represents(links.next, links.prev, w)
    modifies links
    ensures T.Shaped(w, t) && Represents(links.next, links.prev, T.Block(w, t, k - |w.sched.queues|, flag))
  {
    hide T.Inv, Held, RowsOf, T.Block, DelRows, Ins;
    BlockRows(w, t, k - |w.sched.queues|, flag);
    UnlinkedRows(w, t);
    ghost var (rows, threads) := (DelRows(RowsOf(w), t), w.sched.threads.Keys);
    Unlink(links, t, RowsOf(w), threads);
    ghost var (row, i) := (rows[k], |rows[k]|);
    var at := Head(k);
    if flag == I.Prio {
      i := 0;
      Walk(links.next, links.prev, rows, threads, k, 0);
      at := links.next[Head(k)];
      while at != Head(k) && Key(prio, (at - 1) / 2) <= Key(prio, t)
        invariant Held(links.next, links.prev, rows, threads) && i <= |row|
        invariant at == if i == |row| then Head(k) else Link(row[i])
        invariant forall j | 0 <= j < i :: Key(prio, row[j]) <= Key(prio, t)
        decreases |row| - i
      {
        i := i + 1;
        Walk(links.next, links.prev, rows, threads, k, i);
        at := links.next[at];
      }
      InsAt(row, t, prio, i);
    } else {
      assert row[..i] + [t] + row[i..] == row + [t];
    }
    LinkBefore(links, at, t, rows, threads, k, i);
  }

  // ---- the scheduler's own operations ----

  /** The queues of a world whose scheduler has taken a step. */
  function With(w: T.World, s: S.Sched): T.World { w.(sched := s) }

  lemma {:induction false} SameRows(w: T.World, s: S.Sched)
    requires s.queues == w.sched.queues
    ensures RowsOf(With(w, s)) == RowsOf(w)
  {
  }

  lemma {:induction false} SuspendRows(w: T.World, t: Id)
    requires T.Inv(w) && T.Stands(w, t, S.Ready)
    ensures T.Shaped(w, t)
    ensures var w' := With(w, S.Suspend(w.sched, t).0);
            RowsOf(w') == DelRows(RowsOf(w), t) && w'.sched.threads.Keys == w.sched.threads.Keys
  {
    hide S.Inv, Distinct, Del, S.Remove;
    T.ShapedIs(w, t);
    RowsWithout(w, t);
    NotRow(w, t);
    var k := w.sched.threads[t].(stat := S.Suspended);
    T.RemoveStats(w.sched, t, k);
    RemoveQueues(w.sched, t, k);
  }

  lemma {:induction false} StartupRows(w: T.World, t: Id, p: nat)
    requires T.Inv(w) && T.Stands(w, t, S.Start) && p < S.Levels(w.sched)
    ensures p < |w.sched.queues| <= 256 && |w.sched.bytes| == 32
    ensures ToEnd(w, t, p, With(w, S.Startup(w.sched, t, p)))
  {
    hide S.Inv, Distinct, Del, S.Insert;
    S.InvShape(w.sched);
    RowsWithout(w, t);
    NotRow(w, t);
    var s1 := S.Put(w.sched, t, w.sched.threads[t].(prio := p, stat := S.Suspended));
    T.InsertStats(s1, t);
    InsertQueues(s1, t);
  }

  lemma {:induction false} ChangeRows(w: T.World, t: Id, p: nat)
    requires T.Inv(w) && t in w.sched.threads && p < S.Levels(w.sched)
    ensures T.Shaped(w, t) && p < |w.sched.queues|
    ensures var w' := With(w, S.ChangePriority(w.sched, t, p));
            if T.Stands(w, t, S.Ready) then ToEnd(w, t, p, w')
            else RowsOf(w') == RowsOf(w) && w'.sched.threads.Keys == w.sched.threads.Keys
  {
    hide S.Inv, Distinct, Del, S.Insert, S.Remove;
    T.ShapedIs(w, t);
    S.InvShape(w.sched);
    if T.Stands(w, t, S.Ready) {
      RowsWithout(w, t);
      NotRow(w, t);
      var k := w.sched.threads[t];
      S.RemoveStat(w.sched, t, k);
      RemoveQueues(w.sched, t, k);
      assert S.Put(w.sched, t, k) == w.sched;
      var s1 := S.Put(S.Remove(w.sched, t), t, k.(prio := p));
      T.InsertStats(s1, t);
      InsertQueues(s1, t);
    }
  }

  /** rt_thread_yield does something. */
  predicate Rotates(s: S.Sched) {
    && s.current.Some? && s.current.value in s.threads && s.threads[s.current.value].stat == S.Ready
    && s.threads[s.current.value].prio < |s.queues| && |s.queues[s.threads[s.current.value].prio]| > 1
  }

  lemma {:induction false} ScheduleQueues(s: S.Sched)
    requires S.MapOk(s)
    ensures S.Schedule(s).queues == s.queues && S.Schedule(s).threads == s.threads
  {
  }

  lemma {:induction false} YieldRows(w: T.World)
    requires T.Inv(w)
    ensures S.MapOk(w.sched)
    ensures var w' := With(w, S.Yield(w.sched));
            if Rotates(w.sched) then ToEnd(w, w.sched.current.value, w.sched.threads[w.sched.current.value].prio, w')
            else w' == w
  {
    hide S.Inv, Distinct, Del, S.Schedule, S.MapOk;
    S.InvShape(w.sched);
    var s := w.sched;
    if Rotates(s) {
      var (t, p) := (s.current.value, s.threads[s.current.value].prio);
      RowsWithout(w, t);
      NotRow(w, t);
      var s1 := s.(queues := s.queues[p := Del(s.queues[p], t) + [t]]);
      S.MapSame(s, s1);
      ScheduleQueues(s1);
    }
  }

  /** The test of rt_thread_yield on the links: the thread is not alone on its ring. */
  lemma {:induction false} NotAloneLinks(w: T.World, next: K.Links, prev: K.Links, t: Id)
    requires T.Inv(w) && T.Stands(w, t, S.Ready) && Represents(next, prev, w)
    ensures w.sched.threads[t].prio < |w.sched.queues| && Link(t) in next && Link(t) in prev
    ensures next[Link(t)] != prev[Link(t)] <==> |w.sched.queues[w.sched.threads[t].prio]| > 1
  {
    hide S.Inv, Distinct, K.Ring;
    T.OnePlace(w, t);
    S.InvShape(w.sched);
    var p := w.sched.threads[t].prio;
    assert T.At(w, T.Queue(p), t);
    var row := w.sched.queues[p];
    assert RowsOf(w)[p] == row;
    var ring := RingOf(p, row);
    var i :| 0 <= i < |row| && row[i] == t;
    K.LinksOf(next, prev, ring, i + 1);
    K.LinksOf(next, prev, ring, i);
    assert K.Ring(next, prev, ring);
    RingDistinct(next, prev, ring);
  }

  lemma {:induction false} RingDistinct(next: K.Links, prev: K.Links, ring: seq<K.Node>)
    requires K.Ring(next, prev, ring)
    ensures forall i, j | 0 <= i < j < |ring| :: ring[i] != ring[j]
  {
  }

  /** rt_thread_yield: to the end of the queue, unless alone there. */
  method Yield(links: K.Lists, w: T.World) returns (w': T.World)
    requires T.Inv(w) && Represents(links.next, links.prev, w)
    modifies links
    ensures S.MapOk(w.sched) && w' == With(w, S.Yield(w.sched)) && Represents(links.next, links.prev, w')
  {
    hide T.Inv, Held, RowsOf, S.Yield, DelRows, S.MapOk;
    YieldRows(w);
    w' := With(w, S.Yield(w.sched));
    var (threads, current) := (w.sched.threads, w.sched.current);
    if current.Some? && current.value in threads && threads[current.value].stat == S.Ready {
      var t := current.value;
      NotAloneLinks(w, links.next, links.prev, t);
      if links.next[Link(t)] != links.prev[Link(t)] { Move(links, t, threads[t].prio, w, w'); }
    }
  }

  lemma {:induction false} TickPut(w: T.World)
    requires T.Inv(w) && w.sched.current.Some? && w.sched.current.value in w.sched.threads
    ensures var (s, t) := (w.sched, w.sched.current.value);
            var w1 := With(w, S.Put(s, t, s.threads[t].(remaining := s.threads[t].slice)));
            T.Inv(w1) && RowsOf(w1) == RowsOf(w) && w1.sched.threads.Keys == s.threads.Keys
  {
    hide S.Inv, Distinct;
    S.InvShape(w.sched);
    var (s, t) := (w.sched, w.sched.current.value);
    var k := s.threads[t].(remaining := s.threads[t].slice);
    S.SetThread(s, t, k);
    T.SameKeeps(w, S.Put(s, t, k));
  }

  /** The time slice of rt_tick_increase. */
  method Tick(links: K.Lists, w: T.World) returns (w': T.World)
    requires T.Inv(w) && Represents(links.next, links.prev, w)
    modifies links
    ensures S.MapOk(w.sched) && w' == With(w, S.Tick(w.sched)) && Represents(links.next, links.prev, w')
  {
    hide T.Inv, Held, RowsOf, S.Yield, DelRows, S.MapOk;
    YieldRows(w);
    w' := With(w, S.Tick(w.sched));
    if w.sched.current.Some? && w.sched.current.value in w.sched.threads {
      var (s, t) := (w.sched, w.sched.current.value);
      var k := s.threads[t];
      if k.remaining > 1 {
        SameRows(w, S.Put(s, t, k.(remaining := k.remaining - 1)));
        assert w'.sched.threads.Keys == s.threads.Keys;
      } else {
        TickPut(w);
        w' := Yield(links, With(w, S.Put(s, t, k.(remaining := k.slice))));
      }
    }
  }

  lemma {:induction false} PickRows(w: T.World, s: S.Sched)
    requires T.Inv(w) && S.MapOk(s) && s.queues == w.sched.queues && s.threads == w.sched.threads
    ensures var w' := With(w, S.Schedule(s));
            RowsOf(w') == RowsOf(w) && w'.sched.threads.Keys == w.sched.threads.Keys
  {
    hide S.Schedule, S.MapOk;
    ScheduleQueues(s);
  }

  lemma {:induction false} SchedMaps(w: T.World, n: nat)
    requires T.Inv(w)
    ensures S.Inv(w.sched) && S.MapOk(w.sched) && S.MapOk(w.sched.(lock := n))
  {
    hide S.MapOk, Distinct;
    S.InvShape(w.sched);
    S.MapSame(w.sched, w.sched.(lock := n));
  }

  lemma {:induction false} NotReadySuspends(w: T.World, t: Id)
    requires T.Shaped(w, t) && !T.Stands(w, t, S.Ready)
    ensures S.Suspend(w.sched, t).0 == w.sched
  {
  }

  /** Each operation of the scheduler on the links. */
  method Schedules(links: K.Lists, w: T.World, o: S.Op) returns (w': T.World)
    requires T.Inv(w) && T.Legal(w, T.DoSched(o)) && Represents(links.next, links.prev, w)
    modifies links
    ensures w' == With(w, S.Step(w.sched, o)) && Represents(links.next, links.prev, w')
  {
    hide T.Inv, Held, RowsOf, DelRows, S.Inv, S.MapOk, S.Suspend, S.Startup, S.ChangePriority, S.Tick, S.Yield,
         S.Schedule;
    SchedMaps(w, 0);
    var s := w.sched;
    match o {
      case DoSuspend(t) =>
        T.ShapedIs(w, t);
        w' := With(w, S.Suspend(s, t).0);
        if s.threads[t].stat == S.Ready {
          SuspendRows(w, t);
          Leave(links, t, w, w');
        } else {
          NotReadySuspends(w, t);
        }
      case DoStartup(t, p) =>
        StartupRows(w, t, p);
        w' := With(w, S.Startup(s, t, p));
        Move(links, t, p, w, w');
      case DoChange(t, p) =>
        ChangeRows(w, t, p);
        w' := With(w, S.ChangePriority(s, t, p));
        if s.threads[t].stat == S.Ready { Move(links, t, p, w, w'); }
      case DoYield => w' := Yield(links, w);
      case DoTick => w' := Tick(links, w);
      case DoSchedule =>
        PickRows(w, s);
        w' := With(w, S.Schedule(s));
      case DoLock =>
        w' := With(w, s.(lock := s.lock + 1));
        SameRows(w, w'.sched);
      case DoUnlock =>
        PickRows(w, s.(lock := 0));
        w' := With(w, if s.lock <= 1 then S.Schedule(s.(lock := 0)) else s.(lock := s.lock - 1));
        if s.lock > 1 { SameRows(w, w'.sched); }
    }
  }

  // ---- every operation ----

  lemma {:induction false} TimeoutRows(w: T.World, t: Id)
    requires T.Inv(w) && T.Stands(w, t, S.Suspended)
    ensures T.Shaped(w, t) && S.MapOk(S.Insert(w.sched, t))
    ensures RowsOf(T.Timeout(w, t)) == RowsOf(T.Resume(w, t).0)
    ensures T.Timeout(w, t).sched.threads == T.Resume(w, t).0.sched.threads
  {
    hide T.Inv, S.Insert, S.Schedule, DelRows, S.MapOk;
    T.TimeoutOk(w, t);
    ScheduleQueues(S.Insert(w.sched, t));
  }

  lemma {:induction false} ReapRows(w: T.World)
    requires T.Inv(w) && w.defunct != []
    ensures w.defunct[0] in w.sched.threads
    ensures RowsOf(w.(defunct := w.defunct[1..])) == DelRows(RowsOf(w), w.defunct[0])
  {
    hide S.Inv, Distinct, Del;
    var t := w.defunct[0];
    assert t in w.defunct && T.Stands(w, t, S.Closed);
    RowsWithout(w, t);
    NotRow(w, t);
    DelHead(w.defunct);
  }

  /** rt_list_entry of the first node. */
  method First(links: K.Lists, k: nat, ghost w: T.World) returns (t: Id)
    requires Represents(links.next, links.prev, w) && k < |RowsOf(w)| && RowsOf(w)[k] != []
    ensures t == RowsOf(w)[k][0]
  {
    hide RowsOf, Held;
    Walk(links.next, links.prev, RowsOf(w), w.sched.threads.Keys, k, 0);
    t := (links.next[Head(k)] - 1) / 2;
  }

  lemma {:induction false} ListRow(w: T.World, l: nat)
    requires T.Inv(w) && l < |w.lists| && w.lists[l] != []
    ensures |w.sched.queues| + l < |RowsOf(w)| && RowsOf(w)[|w.sched.queues| + l] == w.lists[l]
    ensures T.Stands(w, w.lists[l][0], S.Suspended)
  {
    hide S.Inv, Distinct;
    assert T.On(w, l, w.lists[l][0]);
  }

  lemma {:induction false} NotSuspendedStays(w: T.World, t: Id)
    requires T.Shaped(w, t) && !T.Stands(w, t, S.Suspended)
    ensures T.Resume(w, t).0 == w
  {
  }

  /** One operation on the links, in step with the lists: the rings represent the world after it. */
  method Perform(links: K.Lists, w: T.World, op: T.Op) returns (w': T.World)
    requires T.Inv(w) && T.Legal(w, op) && Represents(links.next, links.prev, w)
    modifies links
    ensures w' == T.Step(w, op) && Represents(links.next, links.prev, w')
  {
    hide T.Inv, Held, RowsOf, DelRows, T.Block, T.Resume, T.Timeout, T.Detach, S.Step, S.Legal, S.MapOk, S.Insert;
    T.Defined(w, op);
    var (n, threads) := (|w.sched.queues|, w.sched.threads);
    match op {
      case DoBlock(t, l, flag) =>
        Suspend(links, t, n + l, flag, T.Prios(w.sched), w);
        w' := T.Block(w, t, l, flag);
      case DoWake(l) =>
        ListRow(w, l);
        var t := First(links, n + l, w);
        Resume(links, t, threads[t].prio, w);
        w' := T.Resume(w, t).0;
      case DoResume(t) =>
        if threads[t].stat == S.Suspended { Resume(links, t, threads[t].prio, w); } else { NotSuspendedStays(w, t); }
        w' := T.Resume(w, t).0;
      case DoTimeout(t) =>
        TimeoutRows(w, t);
        Resume(links, t, threads[t].prio, w);
        w' := T.Timeout(w, t);
      case DoDetach(t, cleanup) =>
        Detach(links, t, cleanup, n + |w.lists|, w);
        w' := T.Detach(w, t, cleanup);
      case DoReap =>
        ReapRows(w);
        LastRow(w);
        var t := First(links, n + |w.lists|, w);
        w' := w.(defunct := w.defunct[1..]);
        Leave(links, t, w, w');
      case DoSched(o) => w' := Schedules(links, w, o);
    }
  }

  lemma {:induction false} LastRow(w: T.World)
    ensures var k := |w.sched.queues| + |w.lists|; k < |RowsOf(w)| && RowsOf(w)[k] == w.defunct
  {
  }

  ghost predicate LegalRun(w: T.World, ops: seq<T.Op>)
    decreases |ops|
  {
    ops == [] || (T.Legal(w, ops[0]) && LegalRun(T.Step(w, ops[0]), ops[1..]))
  }

  /** Over every run of suspending, waking, timeouts, ending, starting, yielding, priority changes, ticks
      and scheduling, the linked rings represent the queues and lists at the end. */
  method Run(links: K.Lists, w: T.World, ops: seq<T.Op>) returns (w': T.World)
    requires T.Inv(w) && LegalRun(w, ops) && Represents(links.next, links.prev, w)
    modifies links
    ensures T.Reaches(w, ops, w') && T.Inv(w') && Represents(links.next, links.prev, w')
    decreases |ops|
  {
    hide T.Inv, T.Legal, T.Step, Represents;
    if ops == [] { return w; }
    T.StepOk(w, ops[0]);
    var w1 := Perform(links, w, ops[0]);
    w' := Run(links, w1, ops[1..]);
  }
}
