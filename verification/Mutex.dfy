/** Mutexes of src/ipc.c with priority inheritance and PRIO waiting lists: what holds when threads ask for
    a mutex only while they hold none, and what is left of it when they nest them. */
module Mutex {
  import opened Seqs
  import opened Options
  import opened SortedList
  import opened IpcList

  const NO_PRIORITY := 0xff

  datatype Mutex = Mutex(value: nat, owner: Option<Id>, original: int, hold: nat, waiters: seq<Id>)

  /** All mutexes, and the current priority of every thread. */
  datatype Sys = Sys(mutexes: seq<Mutex>, prio: map<Id, int>)

  datatype Result = Done | TimedOut | Failed | Blocked

  /** rt_mutex_take by thread `t`, up to the point where it goes on or is suspended. */
  function Take(s: Sys, t: Id, m: nat, wait: bool): (Sys, Result)
    requires m < |s.mutexes|
  {
    var x := s.mutexes[m];
    if x.owner == Some(t) then (s.(mutexes := s.mutexes[m := x.(hold := x.hold + 1)]), Done)
    else if x.value > 0 then
      var x' := x.(value := x.value - 1, owner := Some(t), original := Key(s.prio, t), hold := x.hold + 1);
      (s.(mutexes := s.mutexes[m := x']), Done)
    else if !wait then (s, TimedOut)
    else
      var prio := Boosted(s.prio, x.owner, t);
      (Sys(s.mutexes[m := x.(waiters := Ins(x.waiters, t, prio))], prio), Blocked)
  }

  function Boosted(prio: map<Id, int>, owner: Option<Id>, t: Id): map<Id, int> {
    if owner.Some? && Key(prio, t) < Key(prio, owner.value) then prio[owner.value := Key(prio, t)] else prio
  }

  /** rt_mutex_release by thread `t`. */
  function Release(s: Sys, t: Id, m: nat): (Sys, Result)
    requires m < |s.mutexes|
  {
    var x := s.mutexes[m];
    if x.owner != Some(t) then (s, Failed)
    else if x.hold > 1 then (s.(mutexes := s.mutexes[m := x.(hold := x.hold - 1)]), Done)
    else
      var prio := s.prio[t := x.original];
      if x.waiters != [] then
        var w := x.waiters[0];
        var x' := x.(owner := Some(w), original := Key(prio, w), hold := 1, waiters := x.waiters[1..]);
        (Sys(s.mutexes[m := x'], prio), Done)
      else
        (Sys(s.mutexes[m := x.(value := x.value + 1, owner := None, original := NO_PRIORITY, hold := 0)], prio), Done)
  }

  /** rt_thread_timeout: a waiting thread gives up. */
  function Expire(s: Sys, t: Id, m: nat): Sys
    requires m < |s.mutexes|
  {
    s.(mutexes := s.mutexes[m := s.mutexes[m].(waiters := Del(s.mutexes[m].waiters, t))])
  }

  // ---- the invariant ----

  predicate Owns(s: Sys, m: nat, t: Id) { m < |s.mutexes| && s.mutexes[m].owner == Some(t) }

  predicate Waits(s: Sys, m: nat, t: Id) { m < |s.mutexes| && t in s.mutexes[m].waiters }

  ghost predicate OwnsNone(s: Sys, t: Id) { forall m: nat :: !Owns(s, m, t) }

  ghost predicate WaitsNone(s: Sys, t: Id) { forall m: nat :: !Waits(s, m, t) }

  /** One mutex: free, with nobody waiting; or held, by a thread that does not wait for it. */
  ghost predicate ShapeOk(x: Mutex) {
    && (x.value == 1 <==> x.owner.None?) && (x.value == 0 <==> x.hold > 0) && x.value <= 1
    && Distinct(x.waiters)
    && (x.owner.None? ==> x.waiters == [])
    && (x.owner.Some? ==> x.owner.value !in x.waiters)
  }

  /** And the waiters are in order, and the owner's priority is at least that of every waiter. */
  ghost predicate MutexOk(x: Mutex, prio: map<Id, int>) {
    && ShapeOk(x) && Sorted(x.waiters, prio)
    && (x.owner.Some? ==> forall w | w in x.waiters :: Key(prio, x.owner.value) <= Key(prio, w))
  }

  /** `base` is each thread's own priority: threads without a mutex run at it, an owner at it or above,
      and the mutex remembers it. */
  ghost predicate Inherits(s: Sys, base: map<Id, int>) {
    && (forall t | OwnsNone(s, t) :: Key(s.prio, t) == Key(base, t))
    && (forall m: nat, t | Owns(s, m, t) :: s.mutexes[m].original == Key(base, t) && Key(s.prio, t) <= Key(base, t))
  }

  ghost predicate Single(s: Sys) {
    && (forall m: nat, n: nat, t | Owns(s, m, t) && Owns(s, n, t) :: m == n)
    && (forall m: nat, n: nat, t | Waits(s, m, t) :: !Owns(s, n, t))
    && (forall m: nat, n: nat, t | Waits(s, m, t) && Waits(s, n, t) :: m == n)
  }

  ghost predicate Inv(s: Sys, base: map<Id, int>) {
    && (forall m | 0 <= m < |s.mutexes| :: MutexOk(s.mutexes[m], s.prio))
    && Inherits(s, base) && Single(s)
  }

  // ---- steps ----

  /** Other mutexes do not notice a change of the priority of a thread that does not wait on them, nor own them. */
  lemma {:induction false} OtherOk(x: Mutex, prio: map<Id, int>, t: Id, p: int)
    requires MutexOk(x, prio) && t !in x.waiters && x.owner != Some(t)
    ensures MutexOk(x, prio[t := p])
  {
  }

  lemma {:induction false} TakeFree(s: Sys, base: map<Id, int>, t: Id, m: nat, wait: bool)
    requires Inv(s, base) && m < |s.mutexes| && s.mutexes[m].value > 0 && OwnsNone(s, t) && WaitsNone(s, t)
    ensures Inv(Take(s, t, m, wait).0, base)
  {
    var s' := Take(s, t, m, wait).0;
    assert !Owns(s, m, t);
    forall n: nat, u ensures Owns(s', n, u) <==> Owns(s, n, u) || (n == m && u == t) { }
    forall n: nat, u ensures Waits(s', n, u) <==> Waits(s, n, u) { }
    assert Owns(s', m, t);
    forall u | OwnsNone(s', u) ensures OwnsNone(s, u) {
      forall n: nat ensures !Owns(s, n, u) { assert !Owns(s', n, u); }
    }
  }

  lemma {:induction false} SortedFrame(row: seq<Id>, prio: map<Id, int>, t: Id, p: int)
    requires Sorted(row, prio) && t !in row
    ensures Sorted(row, prio[t := p])
  {
  }

  lemma {:induction false} BlockedOk(x: Mutex, prio: map<Id, int>, t: Id)
    requires MutexOk(x, prio) && x.owner.Some? && t !in x.waiters && x.owner.value != t
    ensures MutexOk(x.(waiters := Ins(x.waiters, t, Boosted(prio, x.owner, t))), Boosted(prio, x.owner, t))
  {
    hide Ins, Sorted, Distinct;
    var prio' := Boosted(prio, x.owner, t);
    SortedFrame(x.waiters, prio, x.owner.value, Key(prio, t));
    InsKeeps(x.waiters, t, prio');
    InsMember(x.waiters, t, prio');
  }

  lemma {:induction false} TakeBlocks(s: Sys, base: map<Id, int>, t: Id, m: nat)
    requires Inv(s, base) && m < |s.mutexes| && s.mutexes[m].value == 0 && OwnsNone(s, t) && WaitsNone(s, t)
    ensures Inv(Take(s, t, m, true).0, base)
  {
    hide Ins, Sorted, Distinct;
    var (x, s') := (s.mutexes[m], Take(s, t, m, true).0);
    var (o, prio) := (x.owner.value, Boosted(s.prio, x.owner, t));
    assert Owns(s, m, o) && !Waits(s, m, t) && !Owns(s, m, t);
    InsMember(x.waiters, t, prio);
    forall n: nat, u
      ensures (Owns(s', n, u) <==> Owns(s, n, u)) && (Waits(s', n, u) <==> Waits(s, n, u) || (n == m && u == t))
    {
    }
    SameOwners(s, s');
    forall n | 0 <= n < |s'.mutexes| ensures MutexOk(s'.mutexes[n], prio) {
      assert !Waits(s, n, o) && (n != m ==> !Owns(s, n, o));
      if n != m { OtherOk(s.mutexes[n], s.prio, o, Key(s.prio, t)); } else { BlockedOk(x, s.prio, t); }
    }
  }

  lemma {:induction false} SameOwners(s: Sys, s': Sys)
    requires forall n: nat, u :: Owns(s', n, u) <==> Owns(s, n, u)
    ensures forall u :: OwnsNone(s', u) <==> OwnsNone(s, u)
  {
    forall u ensures OwnsNone(s', u) <==> OwnsNone(s, u) {
      if OwnsNone(s', u) { forall n: nat ensures !Owns(s, n, u) { assert !Owns(s', n, u); } }
      if OwnsNone(s, u) { forall n: nat ensures !Owns(s', n, u) { assert !Owns(s, n, u); } }
    }
  }

  lemma {:induction false} ReleasedOk(x: Mutex, prio: map<Id, int>, t: Id)
    requires MutexOk(x, prio) && x.owner == Some(t) && x.waiters != []
    ensures var (prio', w) := (prio[t := x.original], x.waiters[0]);
            && MutexOk(x.(owner := Some(w), original := Key(prio', w), hold := 1, waiters := x.waiters[1..]), prio')
            && x.waiters == [w] + x.waiters[1..] && w !in x.waiters[1..]
  {
    var w := x.waiters[0];
    assert x.waiters == [w] + x.waiters[1..];
    assert w in x.waiters;
  }

  lemma {:induction false} FreedOk(x: Mutex, prio: map<Id, int>, t: Id)
    requires MutexOk(x, prio) && x.owner == Some(t) && x.waiters == []
    ensures MutexOk(x.(value := x.value + 1, owner := None, original := NO_PRIORITY, hold := 0), prio[t := x.original])
  {
  }

  /** Releasing a mutex held once: its owner is back at its own priority, and the first waiter, if any,
      becomes the owner. */
  lemma {:induction false} ReleaseLast(s: Sys, base: map<Id, int>, t: Id, m: nat)
    requires Inv(s, base) && Owns(s, m, t) && s.mutexes[m].hold == 1
    ensures Inv(Release(s, t, m).0, base) && OwnsNone(Release(s, t, m).0, t)
  {
    hide Ins, Sorted, Distinct;
    var (x, s') := (s.mutexes[m], Release(s, t, m).0);
    var w := if x.waiters != [] then x.waiters[0] else t;
    if x.waiters != [] {
      assert Waits(s, m, w);
      ReleasedOk(x, s.prio, t);
    }
    forall n: nat, u ensures
        && (Owns(s', n, u) <==> (n != m && Owns(s, n, u)) || (n == m && x.waiters != [] && u == w))
        && (Waits(s', n, u) <==> Waits(s, n, u) && !(n == m && u == w)) { }
    forall n | 0 <= n < |s'.mutexes| ensures MutexOk(s'.mutexes[n], s'.prio) {
      assert !Waits(s, n, t) && (n != m ==> !Owns(s, n, t));
      if n != m { OtherOk(s.mutexes[n], s.prio, t, x.original); } else if x.waiters == [] { FreedOk(x, s.prio, t); }
    }
    assert OwnsNone(s', t);
    assert w != t ==> OwnsNone(s, w);
    forall u | OwnsNone(s', u) && u != t ensures OwnsNone(s, u) {
      forall n: nat ensures !Owns(s, n, u) { assert !Owns(s', n, u); }
    }
    forall n: nat, u | Owns(s', n, u)
      ensures s'.mutexes[n].original == Key(base, u) && Key(s'.prio, u) <= Key(base, u)
    {
      if n != m { assert Owns(s, n, u); }
    }
  }

  lemma {:induction false} ExpireOk(s: Sys, base: map<Id, int>, t: Id, m: nat)
    requires Inv(s, base) && m < |s.mutexes|
    ensures Inv(Expire(s, t, m), base)
  {
    hide Del, Sub, Sorted, Distinct;
    var (x, s') := (s.mutexes[m], Expire(s, t, m));
    DelMember(x.waiters, t);
    DelIsSub(x.waiters, t);
    SubKeeps(Del(x.waiters, t), x.waiters, s.prio);
    forall n: nat, u ensures (Owns(s', n, u) <==> Owns(s, n, u)) && (Waits(s', n, u) ==> Waits(s, n, u)) { }
    SameOwners(s, s');
  }

  /** A recursive take, or a release that is not the last, only counts. */
  lemma {:induction false} CountOk(s: Sys, base: map<Id, int>, m: nat, hold: nat)
    requires Inv(s, base) && m < |s.mutexes| && s.mutexes[m].hold > 0 && hold > 0
    ensures Inv(s.(mutexes := s.mutexes[m := s.mutexes[m].(hold := hold)]), base)
  {
    hide Sorted, Distinct;
    var s' := s.(mutexes := s.mutexes[m := s.mutexes[m].(hold := hold)]);
    forall n: nat, u ensures (Owns(s', n, u) <==> Owns(s, n, u)) && (Waits(s', n, u) <==> Waits(s, n, u)) { }
    SameOwners(s, s');
  }

  // ---- outcomes ----

  ghost predicate OthersSame(s: Sys, s': Sys, m: nat) {
    |s'.mutexes| == |s.mutexes| && forall n | 0 <= n < |s.mutexes| && n != m :: s'.mutexes[n] == s.mutexes[n]
  }

  /** What rt_mutex_take comes to: the thread owns the mutex, one hold deeper; or it waits behind all who
      are no less urgent, and the owner is at least as urgent as it; or nothing has changed.  It fails at
      once exactly when another thread owns the mutex and no waiting is wanted. */
  lemma {:induction false} TakeResult(s: Sys, t: Id, m: nat, wait: bool)
    requires m < |s.mutexes| && ShapeOk(s.mutexes[m])
    ensures var (s', r) := Take(s, t, m, wait);
            && OthersSame(s, s', m) && r in {Done, TimedOut, Blocked}
            && (r == Done <==> s.mutexes[m].owner.None? || Owns(s, m, t))
            && (r == TimedOut <==> s.mutexes[m].owner.Some? && !Owns(s, m, t) && !wait)
            && (r == Done ==> Owns(s', m, t) && s'.mutexes[m].hold == s.mutexes[m].hold + 1 && s'.prio == s.prio)
            && (r == TimedOut ==> s' == s)
            && (r == Blocked ==>
                && s'.mutexes[m] == s.mutexes[m].(waiters := Queued(s.mutexes[m].waiters, t, s'.prio, Prio))
                && (var o := s.mutexes[m].owner.value; var (p, p') := (Key(s.prio, o), Key(s'.prio, o));
                    p' <= p && p' <= Key(s.prio, t) && (p' == p || p' == Key(s.prio, t)))
                && (forall u: Id | Some(u) != s.mutexes[m].owner :: Key(s'.prio, u) == Key(s.prio, u))
                && forall u :: Waits(s', m, u) <==> Waits(s, m, u) || u == t)
  {
    hide Ins, Distinct;
    var x := s.mutexes[m];
    InsMember(x.waiters, t, Boosted(s.prio, x.owner, t));
  }

  /** What rt_mutex_release comes to: only the owner releases; the last release gives it the priority the
      mutex remembers, and hands the mutex to the first waiter, held once, or leaves it free.  That waiter
      is a most urgent one if the list is in order, and the priority is the owner's own one if nothing is
      nested. */
  lemma {:induction false} ReleaseResult(s: Sys, base: map<Id, int>, t: Id, m: nat)
    requires m < |s.mutexes| && ShapeOk(s.mutexes[m])
    ensures var (s', r) := Release(s, t, m);
            var (x, x') := (s.mutexes[m], s'.mutexes[m]);
            && OthersSame(s, s', m) && r in {Done, Failed} && (r == Done <==> Owns(s, m, t))
            && (r == Failed ==> s' == s)
            && (r == Done && x.hold > 1 ==>
               s' == s.(mutexes := s.mutexes[m := x']) && Owns(s', m, t) && x'.hold == x.hold - 1)
            && (r == Done && x.hold == 1 ==>
                && Key(s'.prio, t) == x.original && (forall u | u != t :: Key(s'.prio, u) == Key(s.prio, u))
                && (Inv(s, base) ==> Key(s'.prio, t) == Key(base, t))
                && (x.waiters == [] ==> x'.owner.None?)
                && (x.waiters != [] ==>
                    && x'.owner.Some? && Waits(s, m, x'.owner.value) && x'.hold == 1
                    && (Sorted(x.waiters, s.prio) ==>
                        forall u | Waits(s, m, u) :: Key(s.prio, x'.owner.value) <= Key(s.prio, u))
                    && forall u :: Waits(s', m, u) <==> Waits(s, m, u) && u != x'.owner.value))
  {
    var x := s.mutexes[m];
    assert Inv(s, base) && Owns(s, m, t) ==> x.original == Key(base, t);
    if x.waiters != [] {
      assert x.waiters == [x.waiters[0]] + x.waiters[1..] && x.waiters[0] in x.waiters;
      assert x.waiters[0] !in x.waiters[1..];
    }
  }

  /** A waiter that gives up is gone from the list; owner, holds and priorities stay as they are. */
  lemma {:induction false} ExpireResult(s: Sys, t: Id, m: nat)
    requires m < |s.mutexes|
    ensures var (x, x') := (s.mutexes[m], Expire(s, t, m).mutexes[m]);
            && OthersSame(s, Expire(s, t, m), m) && Expire(s, t, m).prio == s.prio && x' == x.(waiters := x'.waiters)
            && (forall u :: u in x'.waiters <==> u in x.waiters && u != t) && Sub(x'.waiters, x.waiters)
  {
    hide Del, Sub;
    DelMember(s.mutexes[m].waiters, t);
    DelIsSub(s.mutexes[m].waiters, t);
  }

  // ---- whole runs ----

  datatype Op = DoTake(t: Id, m: nat, wait: bool) | DoRelease(t: Id, m: nat) | DoExpire(t: Id, m: nat)

  /** A thread that takes or releases is running, not waiting; one that takes holds no other mutex. */
  ghost predicate Legal(s: Sys, op: Op) {
    && op.m < |s.mutexes|
    && (op.DoTake? ==> WaitsNone(s, op.t) && forall n: nat | n != op.m :: !Owns(s, n, op.t))
  }

  function Step(s: Sys, op: Op): Sys {
    if op.m >= |s.mutexes| then s
    else
    match op
    case DoTake(t, m, wait) => Take(s, t, m, wait).0
    case DoRelease(t, m) => Release(s, t, m).0
    case DoExpire(t, m) => Expire(s, t, m)
  }

  lemma {:induction false} StepOk(s: Sys, base: map<Id, int>, op: Op)
    requires Inv(s, base) && Legal(s, op)
    ensures Inv(Step(s, op), base)
  {
    hide Inherits, Single, Sorted, Distinct, Ins, Del;
    var x := s.mutexes[op.m];
    assert MutexOk(x, s.prio);
    match op
    case DoTake(t, m, wait) =>
      if Owns(s, m, t) {
        CountOk(s, base, m, x.hold + 1);
      } else {
        assert OwnsNone(s, t);
        if x.value > 0 { TakeFree(s, base, t, m, wait); } else if wait { TakeBlocks(s, base, t, m); }
      }
    case DoRelease(t, m) =>
      if Owns(s, m, t) {
        if x.hold > 1 { CountOk(s, base, m, x.hold - 1); } else { ReleaseLast(s, base, t, m); }
      }
    case DoExpire(t, m) => ExpireOk(s, base, t, m);
  }

  ghost predicate Reaches(s: Sys, ops: seq<Op>, s': Sys)
    decreases |ops|
  {
    if ops == [] then s' == s else Legal(s, ops[0]) && Reaches(Step(s, ops[0]), ops[1..], s')
  }

  /** Over every interleaving: a mutex is free iff it has no owner iff it is not held, owners do not wait,
      waiters stay sorted, and no owner runs below a waiter. */
  lemma {:induction false} RunOk(s: Sys, base: map<Id, int>, ops: seq<Op>, s': Sys)
    requires Inv(s, base) && Reaches(s, ops, s')
    ensures Inv(s', base)
    decreases |ops|
  {
    hide Inv, Legal, Step;
    if ops != [] {
      StepOk(s, base, ops[0]);
      RunOk(Step(s, ops[0]), base, ops[1..], s');
    }
  }

  /** Whatever happened in between, inheritance, handoffs and timeouts included, a thread that holds no
      mutex has the priority it had when it last held none. */
  lemma {:induction false} Restored(s: Sys, base: map<Id, int>, ops: seq<Op>, s': Sys, t: Id)
    requires Inv(s, base) && Reaches(s, ops, s') && OwnsNone(s, t) && OwnsNone(s', t)
    ensures Key(s'.prio, t) == Key(s.prio, t)
  {
    hide Reaches, OwnsNone;
    RunOk(s, base, ops, s');
  }

  // ---- threads that ask for several mutexes ----

  /** What holds in every state, nested or not; a thread waits for one mutex at most. */
  ghost predicate Nested(s: Sys) {
    && (forall m | 0 <= m < |s.mutexes| :: ShapeOk(s.mutexes[m]))
    && forall m: nat, n: nat, t | Waits(s, m, t) && Waits(s, n, t) :: m == n
  }

  /** The thread that calls is running. */
  ghost predicate Able(s: Sys, op: Op) { op.m < |s.mutexes| && (op.DoExpire? || WaitsNone(s, op.t)) }

  ghost predicate AbleRun(s: Sys, ops: seq<Op>)
    decreases |ops|
  {
    ops == [] || (Able(s, ops[0]) && AbleRun(Step(s, ops[0]), ops[1..]))
  }

  function After(s: Sys, ops: seq<Op>): Sys
    decreases |ops|
  {
    if ops == [] then s else After(Step(s, ops[0]), ops[1..])
  }

  /** Thread `t` has to wait for mutex `m`. */
  predicate Blocks(s: Sys, t: Id, m: nat) {
    m < |s.mutexes| && s.mutexes[m].owner.Some? && s.mutexes[m].owner != Some(t) && s.mutexes[m].value == 0
  }

  /** Thread `t` gives mutex `m` up for good. */
  predicate GivesUp(s: Sys, t: Id, m: nat) { Owns(s, m, t) && s.mutexes[m].hold <= 1 }

  lemma {:induction false} BlockFacts(s: Sys, t: Id, m: nat)
    requires Blocks(s, t, m)
    ensures var s' := Take(s, t, m, true).0;
            && |s'.mutexes| == |s.mutexes| && (forall n: nat, u :: Owns(s', n, u) <==> Owns(s, n, u))
            && (forall n: nat, u :: Waits(s', n, u) <==> Waits(s, n, u) || (n == m && u == t))
  {
    hide Ins;
    var x := s.mutexes[m];
    InsMember(x.waiters, t, Boosted(s.prio, x.owner, t));
  }

  lemma {:induction false} GiveUpFacts(s: Sys, t: Id, m: nat)
    requires GivesUp(s, t, m) && ShapeOk(s.mutexes[m])
    ensures var (s', x) := (Release(s, t, m).0, s.mutexes[m]);
            && |s'.mutexes| == |s.mutexes| && s'.prio == s.prio[t := x.original]
            && (forall n: nat, u ::
                  Owns(s', n, u) <==> if n == m then x.waiters != [] && u == x.waiters[0] else Owns(s, n, u))
            && forall n: nat, u ::
                 Waits(s', n, u) <==> Waits(s, n, u) && !(n == m && x.waiters != [] && u == x.waiters[0])
  {
    var x := s.mutexes[m];
    if x.waiters != [] {
      assert x.waiters == [x.waiters[0]] + x.waiters[1..];
      assert x.waiters[0] !in x.waiters[1..];
    }
  }

  /** The steps that neither block nor give up leave owners, waiters and priorities alone, but for a mutex
      that was free, or a thread that waits no longer. */
  lemma {:induction false} QuietFacts(s: Sys, op: Op)
    requires op.m < |s.mutexes| && ShapeOk(s.mutexes[op.m])
    requires !(op.DoTake? && op.wait && Blocks(s, op.t, op.m)) && !(op.DoRelease? && GivesUp(s, op.t, op.m))
    ensures var s' := Step(s, op);
            && |s'.mutexes| == |s.mutexes| && s'.prio == s.prio
            && (forall n: nat, u :: Owns(s', n, u) <==>
                  Owns(s, n, u) || (n == op.m && u == op.t && op.DoTake? && s.mutexes[n].owner.None?))
            && (forall n: nat, u :: Waits(s', n, u) <==> Waits(s, n, u) && !(op.DoExpire? && n == op.m && u == op.t))
  {
    hide Del, Distinct;
    DelMember(s.mutexes[op.m].waiters, op.t);
  }

  lemma {:induction false} ShapeStep(s: Sys, op: Op)
    requires op.m < |s.mutexes| && ShapeOk(s.mutexes[op.m]) && (op.DoTake? ==> !Waits(s, op.m, op.t))
    ensures |Step(s, op).mutexes| == |s.mutexes| && ShapeOk(Step(s, op).mutexes[op.m])
  {
    hide Ins, Del, Sub;
    var x := s.mutexes[op.m];
    match op
    case DoTake(t, m, wait) =>
      InsMember(x.waiters, t, Boosted(s.prio, x.owner, t));
      InsDistinct(x.waiters, t, Boosted(s.prio, x.owner, t));
    case DoRelease(t, m) => if x.waiters != [] { assert x.waiters == [x.waiters[0]] + x.waiters[1..]; }
    case DoExpire(t, m) =>
      DelMember(x.waiters, t);
      DelIsSub(x.waiters, t);
      SubDistinct(Del(x.waiters, t), x.waiters);
  }

  /** Every step of running threads keeps the shape. */
  lemma {:induction false} NestedStep(s: Sys, op: Op)
    requires Nested(s) && Able(s, op)
    ensures Nested(Step(s, op))
  {
    hide ShapeOk;
    var s' := Step(s, op);
    ShapeStep(s, op);
    assert forall n | 0 <= n < |s.mutexes| && n != op.m :: s'.mutexes[n] == s.mutexes[n];
    if op.DoTake? && op.wait && Blocks(s, op.t, op.m) {
      BlockFacts(s, op.t, op.m);
    } else if op.DoRelease? && GivesUp(s, op.t, op.m) {
      GiveUpFacts(s, op.t, op.m);
    } else {
      QuietFacts(s, op);
    }
  }

  lemma {:induction false} InvNested(s: Sys, base: map<Id, int>)
    requires Inv(s, base)
    ensures Nested(s)
  {
    hide Distinct, Sorted;
    assert forall m | 0 <= m < |s.mutexes| :: MutexOk(s.mutexes[m], s.prio);
  }

  // ---- no owner runs below a waiter ----

  ghost predicate Urgent(s: Sys) {
    forall m: nat, t, w | Owns(s, m, t) && Waits(s, m, w) :: Key(s.prio, t) <= Key(s.prio, w)
  }

  /** Raising the owner of `m` to the priority of `t` does not put it above the owner of a mutex that it
      waits for itself. */
  ghost predicate TakeMeets(s: Sys, t: Id, m: nat)
    requires Blocks(s, t, m)
  {
    var o := s.mutexes[m].owner.value;
    Key(s.prio, t) < Key(s.prio, o) ==>
      forall n: nat, u | Owns(s, n, u) && Waits(s, n, o) :: Key(s.prio, u) <= Key(s.prio, t)
  }

  /** The priority that `m` remembers is no lower than that of a waiter on another mutex of `t`, and the
      first waiter for `m` is a most urgent one. */
  ghost predicate ReleaseMeets(s: Sys, t: Id, m: nat)
    requires GivesUp(s, t, m)
  {
    var x := s.mutexes[m];
    && (forall n: nat, w | n != m && Owns(s, n, t) && Waits(s, n, w) :: x.original <= Key(s.prio, w))
    && forall w | w in x.waiters :: Key(s.prio, x.waiters[0]) <= Key(s.prio, w)
  }

  /** What a caller could check before the step. */
  ghost predicate Meets(s: Sys, op: Op) {
    && (op.DoTake? && op.wait && Blocks(s, op.t, op.m) ==> TakeMeets(s, op.t, op.m))
    && (op.DoRelease? && GivesUp(s, op.t, op.m) ==> ReleaseMeets(s, op.t, op.m))
  }

  /** A blocking take leaves no owner below a waiter exactly if it meets its condition. */
  lemma {:induction false} TakeUrgent(s: Sys, t: Id, m: nat)
    requires Nested(s) && Urgent(s) && Blocks(s, t, m) && WaitsNone(s, t)
    ensures Urgent(Take(s, t, m, true).0) <==> TakeMeets(s, t, m)
  {
    hide Ins, ShapeOk;
    var (s', o) := (Take(s, t, m, true).0, s.mutexes[m].owner.value);
    assert Owns(s, m, o);
    OwnersApart(s);
    BlockFacts(s, t, m);
    if Urgent(s') && Key(s.prio, t) < Key(s.prio, o) {
      forall n: nat, u | Owns(s, n, u) && Waits(s, n, o) ensures Key(s.prio, u) <= Key(s.prio, t) {
        assert Owns(s', n, u) && Waits(s', n, o);
        assert u != o;
      }
    }
    if TakeMeets(s, t, m) {
      forall n: nat, u, w | Owns(s', n, u) && Waits(s', n, w) ensures Key(s'.prio, u) <= Key(s'.prio, w) {
        assert Owns(s, n, u) && !Owns(s, m, t);
        if Waits(s, n, w) { assert u != w && w != t; } else { assert w == t && u == o; }
      }
    }
  }

  lemma {:induction false} OwnersApart(s: Sys)
    requires Nested(s)
    ensures forall n: nat, u | Owns(s, n, u) :: !Waits(s, n, u)
  {
    hide Distinct;
    forall n: nat, u | Owns(s, n, u) ensures !Waits(s, n, u) { assert ShapeOk(s.mutexes[n]); }
  }

  /** And so does giving a mutex up, by a thread that may hold others. */
  lemma {:induction false} ReleaseUrgent(s: Sys, t: Id, m: nat)
    requires Nested(s) && Urgent(s) && GivesUp(s, t, m) && WaitsNone(s, t)
    ensures Urgent(Release(s, t, m).0) <==> ReleaseMeets(s, t, m)
  {
    hide Distinct;
    var (x, s') := (s.mutexes[m], Release(s, t, m).0);
    assert ShapeOk(x);
    GiveUpFacts(s, t, m);
    hide ShapeOk;
    if Urgent(s') {
      forall n: nat, w | n != m && Owns(s, n, t) && Waits(s, n, w) ensures x.original <= Key(s.prio, w) {
        assert Owns(s', n, t) && Waits(s', n, w) && w != t;
      }
      forall w | w in x.waiters ensures Key(s.prio, x.waiters[0]) <= Key(s.prio, w) {
        assert Waits(s, m, w) && Waits(s, m, x.waiters[0]) && Owns(s', m, x.waiters[0]);
        if w != x.waiters[0] { assert Waits(s', m, w); }
      }
    }
    if ReleaseMeets(s, t, m) {
      forall n: nat, u, w | Owns(s', n, u) && Waits(s', n, w) ensures Key(s'.prio, u) <= Key(s'.prio, w) {
        assert Waits(s, n, w) && w != t;
        if n == m { assert w in x.waiters && Waits(s, m, u); } else { assert Owns(s, n, u); }
      }
    }
  }

  /** One step of any kind. */
  lemma {:induction false} StepUrgent(s: Sys, op: Op)
    requires Nested(s) && Urgent(s) && Able(s, op)
    ensures Urgent(Step(s, op)) <==> Meets(s, op)
  {
    hide ShapeOk, TakeMeets, ReleaseMeets;
    if op.DoTake? && op.wait && Blocks(s, op.t, op.m) {
      TakeUrgent(s, op.t, op.m);
      BlocksIs(s, op.t, op.m);
    } else if op.DoRelease? && GivesUp(s, op.t, op.m) {
      ReleaseUrgent(s, op.t, op.m);
    } else {
      QuietFacts(s, op);
      FreeUnwanted(s);
      var s' := Step(s, op);
      forall n: nat, u, w | Owns(s', n, u) && Waits(s', n, w) ensures Key(s'.prio, u) <= Key(s'.prio, w) {
        assert Waits(s, n, w) && Owns(s, n, u);
      }
    }
  }

  lemma {:induction false} BlocksIs(s: Sys, t: Id, m: nat)
    requires Blocks(s, t, m)
    ensures Step(s, DoTake(t, m, true)) == Take(s, t, m, true).0
  {
  }

  lemma {:induction false} FreeUnwanted(s: Sys)
    requires Nested(s)
    ensures forall n: nat, w | Waits(s, n, w) :: s.mutexes[n].owner.Some?
  {
    hide Distinct;
    forall n: nat, w | Waits(s, n, w) ensures s.mutexes[n].owner.Some? { assert ShapeOk(s.mutexes[n]); }
  }

  /** No state of the run has an owner below a waiter. */
  ghost predicate AlwaysUrgent(s: Sys, ops: seq<Op>)
    decreases |ops|
  {
    Urgent(s) && (ops == [] || AlwaysUrgent(Step(s, ops[0]), ops[1..]))
  }

  ghost predicate AllMeet(s: Sys, ops: seq<Op>)
    decreases |ops|
  {
    ops == [] || (Meets(s, ops[0]) && AllMeet(Step(s, ops[0]), ops[1..]))
  }

  /** Over every run, nested or not: no owner ever runs below a waiter if and only if each blocking take
      and each last release meets its condition. */
  lemma {:induction false} RunUrgent(s: Sys, ops: seq<Op>)
    requires Nested(s) && Urgent(s) && AbleRun(s, ops)
    ensures AlwaysUrgent(s, ops) <==> AllMeet(s, ops)
    decreases |ops|
  {
    hide Nested, Urgent, Able, Step, Meets;
    if ops != [] {
      StepUrgent(s, ops[0]);
      NestedStep(s, ops[0]);
      if Urgent(Step(s, ops[0])) {
        RunUrgent(Step(s, ops[0]), ops[1..]);
      } else {
        assert !AlwaysUrgent(Step(s, ops[0]), ops[1..]);
      }
    }
  }

  // ---- the order of the waiting lists ----

  ghost predicate Ordered(s: Sys) { forall m | 0 <= m < |s.mutexes| :: Sorted(s.mutexes[m].waiters, s.prio) }

  /** Nobody who stands before `o` on a list is less urgent than `p`. */
  ghost predicate StandsRight(row: seq<Id>, prio: map<Id, int>, o: Id, p: int) {
    forall i, j | 0 <= i < j < |row| && row[j] == o :: Key(prio, row[i]) <= p
  }

  /** A take that raises the owner leaves it in its right place on the list it waits on. */
  ghost predicate OrderMeets(s: Sys, op: Op) {
    op.DoTake? && op.wait && Blocks(s, op.t, op.m) ==>
      var o := s.mutexes[op.m].owner.value;
      Key(s.prio, op.t) < Key(s.prio, o) ==>
        forall n | 0 <= n < |s.mutexes| :: StandsRight(s.mutexes[n].waiters, s.prio, o, Key(s.prio, op.t))
  }

  lemma {:induction false} RaisedOrder(row: seq<Id>, prio: map<Id, int>, o: Id, p: int)
    requires Sorted(row, prio) && Distinct(row) && p < Key(prio, o)
    ensures Sorted(row, prio[o := p]) <==> StandsRight(row, prio, o, p)
  {
    var prio' := prio[o := p];
    if Sorted(row, prio') {
      forall i, j | 0 <= i < j < |row| && row[j] == o ensures Key(prio, row[i]) <= p {
        assert row[i] != o && Key(prio', row[i]) <= Key(prio', row[j]);
      }
    }
    if StandsRight(row, prio, o, p) {
      forall i, j | 0 <= i < j < |row| ensures Key(prio', row[i]) <= Key(prio', row[j]) {
        assert Key(prio, row[i]) <= Key(prio, row[j]);
      }
    }
  }

  lemma {:induction false} TakeOrder(s: Sys, t: Id, m: nat)
    requires Nested(s) && Ordered(s) && Blocks(s, t, m) && WaitsNone(s, t)
    ensures Ordered(Take(s, t, m, true).0) <==> OrderMeets(s, DoTake(t, m, true))
  {
    hide Ins, Sorted, StandsRight, Distinct;
    var (x, o, s') := (s.mutexes[m], s.mutexes[m].owner.value, Take(s, t, m, true).0);
    var (p, prio) := (Key(s.prio, t), Boosted(s.prio, x.owner, t));
    assert forall n | 0 <= n < |s.mutexes| :: ShapeOk(s.mutexes[n]);
    assert !Waits(s, m, t);
    assert Sorted(s'.mutexes[m].waiters, prio) by {
      SortedFrame(x.waiters, s.prio, o, p);
      InsSorts(x.waiters, t, prio);
    }
    if p < Key(s.prio, o) {
      forall n | 0 <= n < |s.mutexes| && n != m
        ensures Sorted(s'.mutexes[n].waiters, prio) <==> StandsRight(s.mutexes[n].waiters, s.prio, o, p)
      {
        RaisedOrder(s.mutexes[n].waiters, s.prio, o, p);
      }
      assert StandsRight(x.waiters, s.prio, o, p) by { NotThere(x.waiters, s.prio, o, p); }
    }
  }

  lemma {:induction false} InsSorts(row: seq<Id>, t: Id, prio: map<Id, int>)
    requires Sorted(row, prio) && Distinct(row) && t !in row
    ensures Sorted(Ins(row, t, prio), prio)
  {
    hide Ins, Sorted, Distinct;
    InsKeeps(row, t, prio);
  }

  lemma {:induction false} NotThere(row: seq<Id>, prio: map<Id, int>, o: Id, p: int)
    requires o !in row
    ensures StandsRight(row, prio, o, p)
  {
  }

  /** A step leaves the lists in order exactly if it meets that condition; only a blocking take can fail. */
  lemma {:induction false} StepOrder(s: Sys, op: Op)
    requires Nested(s) && Ordered(s) && Able(s, op)
    ensures Ordered(Step(s, op)) <==> OrderMeets(s, op)
  {
    hide Sorted, Distinct, Del, Ins, Sub;
    if op.DoTake? && op.wait && Blocks(s, op.t, op.m) {
      TakeOrder(s, op.t, op.m);
      BlocksIs(s, op.t, op.m);
    } else {
      var (x, s') := (s.mutexes[op.m], Step(s, op));
      assert ShapeOk(x);
      forall n | 0 <= n < |s'.mutexes| ensures Sorted(s'.mutexes[n].waiters, s'.prio) {
        if op.DoRelease? {
          assert !Waits(s, n, op.t);
          SortedFrame(s.mutexes[n].waiters, s.prio, op.t, x.original);
        }
        if n == op.m { SortedLess(x.waiters, op.t, s'.prio); }
      }
    }
  }

  lemma {:induction false} SortedLess(row: seq<Id>, t: Id, prio: map<Id, int>)
    requires Sorted(row, prio) && Distinct(row)
    ensures Sorted(Del(row, t), prio) && (row != [] ==> Sorted(row[1..], prio))
  {
    hide Del, Sub;
    DelIsSub(row, t);
    SubKeeps(Del(row, t), row, prio);
  }

  ghost predicate AlwaysOrdered(s: Sys, ops: seq<Op>)
    decreases |ops|
  {
    Ordered(s) && (ops == [] || AlwaysOrdered(Step(s, ops[0]), ops[1..]))
  }

  ghost predicate AllKeepOrder(s: Sys, ops: seq<Op>)
    decreases |ops|
  {
    ops == [] || (OrderMeets(s, ops[0]) && AllKeepOrder(Step(s, ops[0]), ops[1..]))
  }

  /** Over every run the waiting lists stay in order if and only if no take raises a waiting owner past
      one that stands before it. */
  lemma {:induction false} RunOrder(s: Sys, ops: seq<Op>)
    requires Nested(s) && Ordered(s) && AbleRun(s, ops)
    ensures AlwaysOrdered(s, ops) <==> AllKeepOrder(s, ops)
    decreases |ops|
  {
    hide Nested, Ordered, Able, Step, OrderMeets;
    if ops != [] {
      StepOrder(s, ops[0]);
      NestedStep(s, ops[0]);
      if Ordered(Step(s, ops[0])) {
        RunOrder(Step(s, ops[0]), ops[1..]);
      } else {
        assert !AlwaysOrdered(Step(s, ops[0]), ops[1..]);
      }
    }
  }

  /** Both conditions hold of every step when threads ask for a mutex only while they hold none. */
  lemma {:induction false} UnnestedMeets(s: Sys, base: map<Id, int>, op: Op)
    requires Inv(s, base) && Legal(s, op) && Able(s, op)
    ensures Meets(s, op) && OrderMeets(s, op)
  {
    hide Inv, Legal, Able, Step, Meets, OrderMeets;
    InvNested(s, base);
    InvUrgent(s, base);
    StepOk(s, base, op);
    InvUrgent(Step(s, op), base);
    StepUrgent(s, op);
    StepOrder(s, op);
  }

  lemma {:induction false} InvUrgent(s: Sys, base: map<Id, int>)
    requires Inv(s, base)
    ensures Urgent(s) && Ordered(s)
  {
    hide Sorted, ShapeOk;
    forall m: nat, t, w | Owns(s, m, t) && Waits(s, m, w) ensures Key(s.prio, t) <= Key(s.prio, w) {
      assert MutexOk(s.mutexes[m], s.prio);
    }
  }

  // ---- the priority a thread is left with ----

  /** Thread `t` holds mutex `m` in every state of the run. */
  ghost predicate Holds(s: Sys, ops: seq<Op>, t: Id, m: nat)
    decreases |ops|
  {
    Owns(s, m, t) && (ops == [] || Holds(Step(s, ops[0]), ops[1..], t, m))
  }

  /** While a thread holds a mutex, the mutex remembers the same priority. */
  lemma {:induction false} Remembers(s: Sys, op: Op, t: Id, m: nat)
    requires Nested(s) && Able(s, op) && Owns(s, m, t) && Owns(Step(s, op), m, t)
    ensures Step(s, op).mutexes[m].original == s.mutexes[m].original
  {
    hide Ins, Del, Distinct;
    assert ShapeOk(s.mutexes[m]);
    if op.DoRelease? && op.m == m && op.t == t && s.mutexes[m].waiters != [] {
      assert s.mutexes[m].waiters[0] in s.mutexes[m].waiters;
    }
  }

  /** Whatever a thread and the others take, release or give up while it holds `m`: giving `m` up leaves
      it at priority `p` if and only if that is what `m` remembered from the start. */
  lemma {:induction false} GivenUp(s: Sys, ops: seq<Op>, t: Id, m: nat, p: int)
    requires Nested(s) && AbleRun(s, ops) && Holds(s, ops, t, m)
    requires m < |After(s, ops).mutexes| && After(s, ops).mutexes[m].hold <= 1
    ensures Key(Release(After(s, ops), t, m).0.prio, t) == p <==> s.mutexes[m].original == p
    decreases |ops|
  {
    hide Nested, Able, Step;
    if ops != [] {
      NestedStep(s, ops[0]);
      Remembers(s, ops[0], t, m);
      GivenUp(Step(s, ops[0]), ops[1..], t, m, p);
    }
  }

  /** A mutex that comes to a thread, taken or handed over, remembers the priority it then runs at. */
  lemma {:induction false} TakenAt(s: Sys, op: Op, t: Id, m: nat)
    requires Nested(s) && Able(s, op) && !Owns(s, m, t) && Owns(Step(s, op), m, t)
    ensures op.m == m && Step(s, op).mutexes[m].original == Key(s.prio, t) == Key(Step(s, op).prio, t)
  {
    hide Ins, Del, Distinct;
    assert ShapeOk(s.mutexes[op.m]);
    assert op.DoRelease? && op.t == t ==> !Waits(s, op.m, t);
  }

  /** A thread is left at priority `p` by the mutex it gives up if and only if it ran at `p` when that
      mutex came to it, however it nests others in between. */
  lemma {:induction false} LastRestores(s: Sys, op: Op, ops: seq<Op>, t: Id, m: nat, p: int)
    requires Nested(s) && Able(s, op) && !Owns(s, m, t) && AbleRun(Step(s, op), ops) && Holds(Step(s, op), ops, t, m)
    requires var s' := After(Step(s, op), ops); m < |s'.mutexes| && s'.mutexes[m].hold <= 1
    ensures Key(Release(After(Step(s, op), ops), t, m).0.prio, t) == p <==> Key(s.prio, t) == p
  {
    hide Nested, Able, Step, Owns;
    NestedStep(s, op);
    TakenAt(s, op, t, m);
    GivenUp(Step(s, op), ops, t, m, p);
  }

  /** Nothing changes the priority of a thread that holds no mutex. */
  lemma {:induction false} FreeKeeps(s: Sys, op: Op, t: Id)
    requires Nested(s) && Able(s, op) && OwnsNone(s, t)
    ensures Key(Step(s, op).prio, t) == Key(s.prio, t)
  {
    hide Ins, Del, Distinct;
    assert !Owns(s, op.m, t);
  }

  /** Only the mutex that is named changes hands. */
  lemma {:induction false} OthersHeld(s: Sys, op: Op, n: nat, t: Id)
    requires n != op.m
    ensures Owns(Step(s, op), n, t) <==> Owns(s, n, t)
  {
    hide Ins, Del;
  }

  /** The mutexes thread `t` holds after the step, in the order in which it got them. */
  function Stack(s: Sys, op: Op, held: seq<nat>, t: Id): seq<nat> {
    if Owns(Step(s, op), op.m, t) && !Owns(s, op.m, t) then held + [op.m]
    else if Owns(s, op.m, t) && !Owns(Step(s, op), op.m, t) && held != [] then held[..|held| - 1]
    else held
  }

  /** Thread `t` gives its mutexes up in the reverse order of getting them. */
  ghost predicate InOrder(s: Sys, held: seq<nat>, ops: seq<Op>, t: Id)
    decreases |ops|
  {
    ops == [] ||
    (var (op, s1) := (ops[0], Step(s, ops[0]));
     && (Owns(s, op.m, t) && !Owns(s1, op.m, t) ==> held != [] && held[|held| - 1] == op.m)
     && InOrder(s1, Stack(s, op, held, t), ops[1..], t))
  }

  /** `held` are the mutexes of `t`; it runs at `p` if it has none, else the first remembers `p`. */
  ghost predicate Owed(s: Sys, held: seq<nat>, t: Id, p: int) {
    && Distinct(held) && (forall n: nat :: Owns(s, n, t) <==> n in held)
    && if held == [] then Key(s.prio, t) == p else held[0] < |s.mutexes| && s.mutexes[held[0]].original == p
  }

  lemma {:induction false} StackStep(s: Sys, held: seq<nat>, op: Op, t: Id, p: int)
    requires Nested(s) && Able(s, op) && Owed(s, held, t, p)
    requires Owns(s, op.m, t) && !Owns(Step(s, op), op.m, t) ==> held != [] && held[|held| - 1] == op.m
    ensures Owed(Step(s, op), Stack(s, op, held, t), t, p)
  {
    hide Nested, Able, Step;
    var (s', held') := (Step(s, op), Stack(s, op, held, t));
    forall n: nat | n != op.m ensures Owns(s', n, t) <==> Owns(s, n, t) { OthersHeld(s, op, n, t); }
    var (had, has) := (Owns(s, op.m, t), Owns(s', op.m, t));
    if has && !had {
      TakenAt(s, op, t, op.m);
      assert forall n :: n in held' <==> n in held || n == op.m;
    } else if had && !has {
      assert held == held' + [op.m];
      assert forall n :: n in held <==> n in held' || n == op.m;
      if held' == [] { LeavesWith(s, op, t); }
    } else if held == [] {
      FreeKeeps(s, op, t);
    }
    if held != [] && held' != [] {
      assert held'[0] == held[0] && held[0] in held && held'[0] in held';
      Remembers(s, op, t, held[0]);
    }
  }

  lemma {:induction false} LeavesWith(s: Sys, op: Op, t: Id)
    requires Nested(s) && Able(s, op) && Owns(s, op.m, t) && !Owns(Step(s, op), op.m, t)
    ensures Key(Step(s, op).prio, t) == s.mutexes[op.m].original
  {
    hide Ins, Del, Distinct;
    assert ShapeOk(s.mutexes[op.m]);
  }

  lemma {:induction false} InOrderOwed(s: Sys, held: seq<nat>, ops: seq<Op>, t: Id, p: int)
    requires Nested(s) && AbleRun(s, ops) && InOrder(s, held, ops, t) && Owed(s, held, t, p)
    ensures OwnsNone(After(s, ops), t) ==> Key(After(s, ops).prio, t) == p
    decreases |ops|
  {
    hide Nested, Able, Step, Stack, Owed;
    if ops == [] {
      OwedNone(s, held, t, p);
    } else {
      NestedStep(s, ops[0]);
      StackStep(s, held, ops[0], t, p);
      InOrderOwed(Step(s, ops[0]), Stack(s, ops[0], held, t), ops[1..], t, p);
    }
  }

  lemma {:induction false} OwedNone(s: Sys, held: seq<nat>, t: Id, p: int)
    requires Owed(s, held, t, p)
    ensures OwnsNone(s, t) ==> Key(s.prio, t) == p
  {
    assert held != [] ==> held[0] in held && Owns(s, held[0], t);
  }

  /** Over every run, whatever the others do: a thread that gives its mutexes up in the reverse order of
      getting them is back at its priority whenever it holds none. */
  lemma {:induction false} ReverseRestores(s: Sys, ops: seq<Op>, t: Id)
    requires Nested(s) && AbleRun(s, ops) && OwnsNone(s, t) && InOrder(s, [], ops, t)
    ensures OwnsNone(After(s, ops), t) ==> Key(After(s, ops).prio, t) == Key(s.prio, t)
  {
    hide Nested, AbleRun, InOrder, After;
    InOrderOwed(s, [], ops, t, Key(s.prio, t));
  }

  // ---- runs in which it goes wrong ----

  function Free(): Mutex { Mutex(1, None, NO_PRIORITY, 0, []) }

  /** Nested mutexes break both: thread 1, of priority 10, takes mutexes 0 and 1, thread 2, of priority 3,
      waits for 0; giving up 1 puts the owner of 0 back to 10.  And if it takes 1 only after it was raised,
      giving up both leaves it at 3 for good. */
  lemma {:induction false} NestedBreaks()
    ensures var s := Sys([Free(), Free()], map[1 := 10, 2 := 3]);
            var a := Take(Take(Take(s, 1, 0, true).0, 1, 1, true).0, 2, 0, true).0;
            && Urgent(a) && WaitsNone(a, 1) && !Urgent(Release(a, 1, 1).0)
    ensures var s := Sys([Free(), Free()], map[1 := 10, 2 := 3]);
            var a := Take(Take(Take(s, 1, 0, true).0, 2, 0, true).0, 1, 1, true).0;
            var b := Release(Release(a, 1, 0).0, 1, 1).0;
            WaitsNone(a, 1) && OwnsNone(s, 1) && OwnsNone(b, 1) && Key(b.prio, 1) == 3 && Key(s.prio, 1) == 10
  {
    var s := Sys([Free(), Free()], map[1 := 10, 2 := 3]);
    var a0 := Mutex(0, Some(1), 10, 1, []);
    var s1 := Take(s, 1, 0, true).0;
    assert s1 == Sys([a0, Free()], s.prio);
    var raised := map[1 := 3, 2 := 3];
    assert s.prio[1 := 3] == raised;
    assert Ins([], 2, raised) == [2];
    NestedFirst(s1, raised);
    NestedSecond(s1, raised);
  }

  lemma {:induction false} NestedFirst(s: Sys, raised: map<Id, int>)
    requires s == Sys([Mutex(0, Some(1), 10, 1, []), Free()], map[1 := 10, 2 := 3])
    requires raised == map[1 := 3, 2 := 3] && Ins([], 2, raised) == [2]
    ensures var a := Take(Take(s, 1, 1, true).0, 2, 0, true).0;
            Urgent(a) && WaitsNone(a, 1) && !Urgent(Release(a, 1, 1).0)
  {
    var x := Mutex(0, Some(1), 10, 1, []);
    var s2 := Take(s, 1, 1, true).0;
    assert s2 == Sys([x, x], s.prio);
    var a := Take(s2, 2, 0, true).0;
    assert s.prio[1 := 3] == raised;
    assert a == Sys([x.(waiters := [2]), x], raised);
    var b := Release(a, 1, 1).0;
    assert b.prio == raised[1 := 10];
    assert Owns(b, 0, 1) && Waits(b, 0, 2);
  }

  lemma {:induction false} NestedSecond(s: Sys, raised: map<Id, int>)
    requires s == Sys([Mutex(0, Some(1), 10, 1, []), Free()], map[1 := 10, 2 := 3])
    requires raised == map[1 := 3, 2 := 3] && Ins([], 2, raised) == [2]
    ensures var a := Take(Take(s, 2, 0, true).0, 1, 1, true).0;
            var b := Release(Release(a, 1, 0).0, 1, 1).0;
            WaitsNone(a, 1) && OwnsNone(b, 1) && Key(b.prio, 1) == 3
  {
    var x := Mutex(0, Some(1), 10, 1, [2]);
    var s2 := Take(s, 2, 0, true).0;
    assert s.prio[1 := 3] == raised;
    assert s2 == Sys([x, Free()], raised);
    var a := Take(s2, 1, 1, true).0;
    assert a == Sys([x, Mutex(0, Some(1), 3, 1, [])], raised);
    var c := Release(a, 1, 0).0;
    assert c.prio == raised[1 := 10] && c.mutexes[0] == Mutex(0, Some(2), 3, 1, x.waiters[1..]);
    var b := Release(c, 1, 1).0;
    assert b.mutexes[1] == Free() && b.mutexes[0] == c.mutexes[0];
  }

  /** Thread 1 has mutex 0 and thread 2 has mutex 1, for which 4 and then 1 wait.  Thread 3 asks for 0. */
  function ChainOp(k: nat): Op {
    if k == 0 then DoTake(1, 0, true)
    else if k == 1 then DoTake(2, 1, true)
    else if k == 2 then DoTake(4, 1, true)
    else if k == 3 then DoTake(1, 1, true)
    else DoTake(3, 0, true)
  }

  function Held(t: Id, waiters: seq<Id>): Mutex { Mutex(0, Some(t), 10, 1, waiters) }

  function Chain(k: nat): Sys {
    if k == 0 then Sys([Free(), Free()], map[1 := 10, 2 := 10, 3 := 3, 4 := 5])
    else if k == 1 then Sys([Held(1, []), Free()], map[1 := 10, 2 := 10, 3 := 3, 4 := 5])
    else if k == 2 then Sys([Held(1, []), Held(2, [])], map[1 := 10, 2 := 10, 3 := 3, 4 := 5])
    else if k == 3 then Sys([Held(1, []), Held(2, [4])], map[1 := 10, 2 := 5, 3 := 3, 4 := 5])
    else if k == 4 then Sys([Held(1, []), Held(2, [4, 1])], map[1 := 10, 2 := 5, 3 := 3, 4 := 5])
    else Sys([Held(1, [3]), Held(2, [4, 1])], map[1 := 3, 2 := 5, 3 := 3, 4 := 5])
  }

  lemma {:induction false} ChainStep(k: nat)
    requires k < 5
    ensures Able(Chain(k), ChainOp(k)) && Step(Chain(k), ChainOp(k)) == Chain(k + 1)
  {
    var (s, s', op) := (Chain(k), Chain(k + 1), ChainOp(k));
    assert k == 0 || k == 1 || k == 2 || k == 3 || k == 4;
    assert Ins([], 4, s'.prio) == [4] && Ins([], 3, s'.prio) == [3];
    assert [4][1..] == [] && Ins([], 1, s'.prio) == [1];
    assert k == 3 ==> Ins([4], 1, s'.prio) == [4] + [1] == [4, 1];
    assert k == 2 ==> s.prio[2 := 5] == s'.prio;
    assert k == 4 ==> s.prio[1 := 3] == s'.prio;
    assert Step(s, op).mutexes[op.m].waiters == s'.mutexes[op.m].waiters;
    assert Step(s, op).mutexes[op.m] == s'.mutexes[op.m];
  }

  /** Nobody ever holds two mutexes, and the properties still fail: thread 3 raises thread 1, but neither
      moves it before 4 on the list it waits on nor raises thread 2, the owner it waits for. */
  lemma {:induction false} ChainBreaks()
    ensures Chain(0) == Sys([Free(), Free()], Chain(0).prio)
    ensures forall k: nat | k < 5 :: Able(Chain(k), ChainOp(k)) && Step(Chain(k), ChainOp(k)) == Chain(k + 1)
    ensures forall k: nat, m: nat, n: nat, t | k <= 5 && Owns(Chain(k), m, t) && Owns(Chain(k), n, t) :: m == n
    ensures forall k: nat | k <= 4 :: Urgent(Chain(k)) && Ordered(Chain(k))
    ensures !Urgent(Chain(5)) && !Ordered(Chain(5))
  {
    hide Step, Able;
    forall k: nat | k < 5 ensures Able(Chain(k), ChainOp(k)) && Step(Chain(k), ChainOp(k)) == Chain(k + 1) {
      ChainStep(k);
    }
    forall k: nat | k <= 4 ensures Urgent(Chain(k)) && Ordered(Chain(k)) { ChainGood(k); }
    assert Owns(Chain(5), 1, 2) && Waits(Chain(5), 1, 1);
    var (row, prio) := (Chain(5).mutexes[1].waiters, Chain(5).prio);
    assert row[0] == 4 && row[1] == 1 && Key(prio, row[0]) > Key(prio, row[1]);
  }

  lemma {:induction false} ChainGood(k: nat)
    requires k <= 4
    ensures Urgent(Chain(k)) && Ordered(Chain(k))
  {
    assert k == 0 || k == 1 || k == 2 || k == 3 || k == 4;
    forall m: nat, t, w | Owns(Chain(k), m, t) && Waits(Chain(k), m, w)
      ensures Key(Chain(k).prio, t) <= Key(Chain(k).prio, w)
    {
      assert m == 0 || m == 1;
    }
  }

  lemma {:induction false} InitOk(k: nat, prio: map<Id, int>)
    ensures Inv(Sys(seq(k, _ => Free()), prio), prio)
  {
  }

  // ---- in place ----

  class Kernel {
    var mutexes: seq<Mutex>
    var prio: map<Id, int>

    ghost function View(): Sys
      reads this
    {
      Sys(mutexes, prio)
    }

    method MutexTake(thread: Id, m: nat, time: int) returns (r: Result)
      requires m < |mutexes| && thread in prio && ShapeOk(mutexes[m])
      modifies this
      ensures (View(), r) == Take(old(View()), thread, m, time != 0)
    {
      hide Ins;
      var x := mutexes[m];
      if x.owner == Some(thread) {
        mutexes := mutexes[m := x.(hold := x.hold + 1)];
      } else if x.value > 0 {
        x := x.(value := x.value - 1);
        x := x.(owner := Some(thread));
        x := x.(original := prio[thread]);
        mutexes := mutexes[m := x.(hold := x.hold + 1)];
      } else {
        if time == 0 { return TimedOut; }
        if prio[thread] < Key(prio, x.owner.value) {
          prio := prio[x.owner.value := prio[thread]];
        }
        var list := Suspend(x.waiters, thread, prio, Prio);
        mutexes := mutexes[m := x.(waiters := list)];
        return Blocked;
      }
      return Done;
    }

    method MutexRelease(thread: Id, m: nat) returns (r: Result)
      requires m < |mutexes| && thread in prio && ShapeOk(mutexes[m])
      modifies this
      ensures (View(), r) == Release(old(View()), thread, m)
    {
      var x := mutexes[m];
      if x.owner != Some(thread) { return Failed; }
      x := x.(hold := x.hold - 1);
      if x.hold == 0 {
        if x.original != prio[thread] { prio := prio[thread := x.original]; }
        assert prio == old(prio)[thread := x.original];
        if x.waiters != [] {
          var w := x.waiters[0];
          x := x.(owner := Some(w), original := Key(prio, w));
          x := x.(hold := x.hold + 1);
          x := x.(waiters := x.waiters[1..]);
        } else {
          x := x.(value := x.value + 1);
          x := x.(owner := None, original := NO_PRIORITY);
        }
      }
      mutexes := mutexes[m := x];
      return Done;
    }
  }
}
