/** Where threads are: the ready queues of src/scheduler.c, the lists of threads suspended on the objects
    of src/ipc.c, and the list of threads that have ended. */
module ThreadLists {
  import opened Seqs
  import opened SortedList
  import opened Options
  import I = IpcList
  import S = Scheduler

  // All these lists link the same node of a thread, so that a thread must be on one of them at most.

  /** `lists` are the waiting lists of all objects, `defunct` is rt_thread_defunct. */
  datatype World = World(sched: S.Sched, lists: seq<seq<Id>>, defunct: seq<Id>)

  function Prios(s: S.Sched): map<Id, int> { map t | t in s.threads :: s.threads[t].prio }

  ghost predicate Shaped(w: World, t: Id) {
    t in w.sched.threads && w.sched.threads[t].prio < |w.sched.queues| <= 256 && |w.sched.bytes| == 32
  }

  /** rt_ipc_list_suspend of thread `t` on list `l`. */
  function Block(w: World, t: Id, l: nat, flag: I.Flag): World
    requires Shaped(w, t) && l < |w.lists|
  {
    w.(sched := S.Suspend(w.sched, t).0, lists := w.lists[l := I.Queued(w.lists[l], t, Prios(w.sched), flag)])
  }

  /** rt_thread_resume; the flag tells success. */
  function Resume(w: World, t: Id): (World, bool)
    requires Shaped(w, t)
  {
    if w.sched.threads[t].stat != S.Suspended then (w, false)
    else (w.(sched := S.Insert(w.sched, t), lists := DelRows(w.lists, t)), true)
  }

  /** rt_thread_timeout. */
  function Timeout(w: World, t: Id): World
    requires Shaped(w, t) && S.MapOk(S.Insert(w.sched, t))
  {
    w.(sched := S.Schedule(S.Insert(w.sched, t)), lists := DelRows(w.lists, t))
  }

  /** rt_thread_detach, with or without a cleanup that leaves the thread to the idle thread. */
  function Detach(w: World, t: Id, cleanup: bool): World
    requires Shaped(w, t)
  {
    World(S.Close(w.sched, t), DelRows(w.lists, t), if cleanup then [t] + w.defunct else w.defunct)
  }

  // ---- the invariant ----

  predicate On(w: World, l: nat, t: Id) { l < |w.lists| && t in w.lists[l] }

  predicate Stands(w: World, t: Id, stat: S.Stat) { t in w.sched.threads && w.sched.threads[t].stat == stat }

  /** The scheduler's invariant; a waiting list holds suspended threads only, each at most once and on no
      second list; the ended threads are closed. */
  ghost predicate Inv(w: World) {
    && S.Inv(w.sched)
    && (forall l | 0 <= l < |w.lists| :: Distinct(w.lists[l]))
    && (forall l: nat, t | On(w, l, t) :: Stands(w, t, S.Suspended))
    && (forall l: nat, m: nat, t | On(w, l, t) && On(w, m, t) :: l == m)
    && Distinct(w.defunct) && (forall t | t in w.defunct :: Stands(w, t, S.Closed))
  }

  /** A place a thread's node can be linked at. */
  datatype Place = Queue(p: nat) | List(l: nat) | Defunct

  predicate At(w: World, x: Place, t: Id) {
    match x
    case Queue(p) => p < |w.sched.queues| && t in w.sched.queues[p]
    case List(l) => On(w, l, t)
    case Defunct => t in w.defunct
  }

  /** No thread is in two places, and it is in a ready queue exactly when it is READY, at its priority. */
  lemma {:induction false} OnePlace(w: World, t: Id)
    requires Inv(w)
    ensures forall x, y | At(w, x, t) && At(w, y, t) :: x == y
    ensures forall p: nat | p < |w.sched.queues| ::
              At(w, Queue(p), t) <==> Stands(w, t, S.Ready) && w.sched.threads[t].prio == p
  {
    hide S.Inv, Distinct;
    forall x | At(w, x, t) ensures Placed(w, x, t) { AtPlaced(w, x, t); }
    forall p: nat | p < |w.sched.queues|
      ensures At(w, Queue(p), t) <==> Stands(w, t, S.Ready) && w.sched.threads[t].prio == p
    {
      QueuedIs(w, p, t);
    }
  }

  /** The state that goes with a place. */
  ghost predicate Placed(w: World, x: Place, t: Id) {
    match x
    case Queue(p) => Stands(w, t, S.Ready) && w.sched.threads[t].prio == p
    case List(l) => Stands(w, t, S.Suspended) && forall m: nat | On(w, m, t) :: m == l
    case Defunct => Stands(w, t, S.Closed)
  }

  lemma {:induction false} QueuedIs(w: World, p: nat, t: Id)
    requires S.Inv(w.sched) && p < |w.sched.queues|
    ensures At(w, Queue(p), t) <==> Stands(w, t, S.Ready) && w.sched.threads[t].prio == p
  {
    hide S.MapOk, S.Flagged, Distinct;
  }

  lemma {:induction false} AtPlaced(w: World, x: Place, t: Id)
    requires Inv(w) && At(w, x, t)
    ensures Placed(w, x, t)
  {
    hide S.Inv, Distinct;
    if x.Queue? { QueuedIs(w, x.p, t); }
  }

  // ---- what the steps do to the states of threads ----

  /** Every thread but `t` is in the state it was in, and waiting threads are untouched. */
  ghost predicate Others(s: S.Sched, s': S.Sched, t: Id) {
    && s'.threads.Keys == s.threads.Keys
    && forall u | u in s.threads && u != t :: s'.threads[u].stat == s.threads[u].stat
  }

  ghost predicate SameStats(s: S.Sched, s': S.Sched) {
    s'.threads.Keys == s.threads.Keys && forall u | u in s.threads :: s'.threads[u].stat == s.threads[u].stat
  }

  lemma {:induction false} ScheduleStats(s: S.Sched)
    requires S.MapOk(s)
    ensures S.Schedule(s).threads == s.threads
  {
  }

  lemma {:induction false} YieldStats(s: S.Sched)
    requires S.MapOk(s)
    ensures S.Yield(s).threads == s.threads
  {
    hide S.Schedule;
    if s.current.Some? && s.current.value in s.threads {
      var (t, k) := (s.current.value, s.threads[s.current.value]);
      if k.prio < |s.queues| { ScheduleStats(s.(queues := s.queues[k.prio := Del(s.queues[k.prio], t) + [t]])); }
    }
  }

  lemma {:induction false} TickStats(s: S.Sched)
    requires S.MapOk(s)
    ensures SameStats(s, S.Tick(s))
  {
    hide S.Yield;
    if s.current.Some? && s.current.value in s.threads {
      var (t, k) := (s.current.value, s.threads[s.current.value]);
      YieldStats(S.Put(s, t, k.(remaining := k.slice)));
    }
  }

  lemma {:induction false} InsertStats(s: S.Sched, t: Id)
    requires t in s.threads && s.threads[t].prio < |s.queues| <= 256 && |s.bytes| == 32
    ensures Others(s, S.Insert(s, t), t) && S.Insert(s, t).threads[t].stat == S.Ready
  {
    S.InsertThreads(s, t);
  }

  lemma {:induction false} RemoveStats(s: S.Sched, t: Id, k: S.Thread)
    requires t in s.threads && s.threads[t].prio == k.prio < |s.queues| <= 256 && |s.bytes| == 32
    ensures S.Remove(S.Put(s, t, k), t).threads == s.threads[t := k]
  {
    S.RemoveStat(s, t, k);
  }

  // ---- what the steps do to the lists ----

  lemma {:induction false} OffLists(w: World, t: Id)
    requires Inv(w)
    ensures var r := DelRows(w.lists, t);
            && (forall l | 0 <= l < |r| :: Distinct(r[l]))
            && forall l: nat, u :: On(w.(lists := r), l, u) <==> On(w, l, u) && u != t
  {
    hide S.Inv, Distinct, Del;
    var r := DelRows(w.lists, t);
    forall l | 0 <= l < |r| ensures Distinct(r[l]) { S.DelDistinct(w.lists[l], t); }
    forall l: nat, u ensures On(w.(lists := r), l, u) <==> On(w, l, u) && u != t {
      if l < |r| { DelMember(w.lists[l], t); }
    }
  }

  /** A step that takes `t` off its list and may change its state. */
  lemma {:induction false} OffKeeps(w: World, t: Id, s: S.Sched)
    requires Inv(w) && S.Inv(s) && Others(w.sched, s, t) && t in w.sched.threads && t !in w.defunct
    ensures Inv(w.(sched := s, lists := DelRows(w.lists, t)))
    ensures forall l: nat, u :: On(w.(sched := s, lists := DelRows(w.lists, t)), l, u) <==> On(w, l, u) && u != t
  {
    hide S.Inv, Distinct, DelRows;
    OffLists(w, t);
    var (w', v) := (w.(sched := s, lists := DelRows(w.lists, t)), w.(lists := DelRows(w.lists, t)));
    forall l: nat, u ensures On(w', l, u) <==> On(w, l, u) && u != t { assert On(w', l, u) <==> On(v, l, u); }
    forall l: nat, u | On(w', l, u) ensures Stands(w', u, S.Suspended) { assert Stands(w, u, S.Suspended); }
    forall u | u in w'.defunct ensures Stands(w', u, S.Closed) { assert Stands(w, u, S.Closed); }
  }

  /** A step of the scheduler that changes no state, or that of a thread on no list. */
  lemma {:induction false} SchedKeeps(w: World, s: S.Sched, t: Id)
    requires Inv(w) && S.Inv(s) && Others(w.sched, s, t)
    requires (forall l: nat :: !On(w, l, t)) && t !in w.defunct
    ensures Inv(w.(sched := s))
  {
    hide S.Inv, Distinct;
    var w' := w.(sched := s);
    forall l: nat, u ensures On(w', l, u) <==> On(w, l, u) { }
    forall l: nat, u | On(w', l, u) ensures Stands(w', u, S.Suspended) {
      assert On(w, l, u) && u != t; assert Stands(w, u, S.Suspended);
    }
    forall u | u in w'.defunct ensures Stands(w', u, S.Closed) { assert Stands(w, u, S.Closed); }
  }

  lemma {:induction false} SameKeeps(w: World, s: S.Sched)
    requires Inv(w) && S.Inv(s) && SameStats(w.sched, s)
    ensures Inv(w.(sched := s))
  {
    hide S.Inv, Distinct;
    var w' := w.(sched := s);
    forall l: nat, u ensures On(w', l, u) <==> On(w, l, u) { }
    forall l: nat, u | On(w', l, u) ensures Stands(w', u, S.Suspended) { assert Stands(w, u, S.Suspended); }
    forall u | u in w'.defunct ensures Stands(w', u, S.Closed) { assert Stands(w, u, S.Closed); }
  }

  lemma {:induction false} ShapedIs(w: World, t: Id)
    requires S.Inv(w.sched) && t in w.sched.threads
    ensures Shaped(w, t)
  {
    hide S.Inv;
    S.InvShape(w.sched);
  }

  /** Thread `t` stands as `stat` and is on list `l`, if any; all else is as it was. */
  ghost predicate Moved(w: World, w': World, t: Id, stat: S.Stat, l: int) {
    && Stands(w', t, stat) && Others(w.sched, w'.sched, t) && |w'.lists| == |w.lists|
    && forall m: nat, u :: On(w', m, u) <==> (On(w, m, u) && u != t) || (u == t && m == l)
  }

  /** The running thread is suspended on an object: off its ready queue, on that waiting list. */
  lemma {:induction false} BlockOk(w: World, t: Id, l: nat, flag: I.Flag)
    requires Inv(w) && Stands(w, t, S.Ready) && l < |w.lists|
    ensures Shaped(w, t) && Inv(Block(w, t, l, flag)) && Moved(w, Block(w, t, l, flag), t, S.Suspended, l)
  {
    hide S.Inv, S.Remove, Distinct, I.Queued;
    ShapedIs(w, t);
    var (k, w') := (w.sched.threads[t].(stat := S.Suspended), Block(w, t, l, flag));
    S.InvShape(w.sched);
    S.RemoveOk(w.sched, t, k);
    assert forall m: nat | On(w, m, t) :: Stands(w, t, S.Suspended);
    assert !On(w, l, t);
    I.QueuedOk(w.lists[l], t, Prios(w.sched), flag);
    forall m: nat, u ensures On(w', m, u) <==> On(w, m, u) || (m == l && u == t) { }
    forall m: nat, u | On(w', m, u) ensures Stands(w', u, S.Suspended) {
      if u != t { assert Stands(w, u, S.Suspended); }
    }
    forall u | u in w'.defunct ensures Stands(w', u, S.Closed) { assert Stands(w, u, S.Closed); }
  }

  /** And it stands there behind everyone, or in a list in order of priority behind all of its or a higher one
      and before all of a lower one. */
  lemma {:induction false} BlockPlace(w: World, t: Id, l: nat, flag: I.Flag) returns (p: nat)
    requires Inv(w) && Stands(w, t, S.Ready) && l < |w.lists| && (flag == I.Prio ==> Sorted(w.lists[l], Prios(w.sched)))
    ensures Shaped(w, t)
    ensures var (list, w') := (w.lists[l], Block(w, t, l, flag));
            && p <= |list| && w'.lists == w.lists[l := list[..p] + [t] + list[p..]] && (flag == I.Fifo ==> p == |list|)
            && (flag == I.Prio ==> forall j | 0 <= j < |list| ::
                  j < p <==> Key(Prios(w.sched), list[j]) <= Key(Prios(w.sched), t))
  {
    hide S.Inv, S.Suspend, I.Queued, Sorted, Distinct;
    ShapedIs(w, t);
    p := I.QueuedPlace(w.lists[l], t, Prios(w.sched), flag);
  }

  lemma {:induction false} ResumeOk(w: World, t: Id)
    requires Inv(w) && t in w.sched.threads
    ensures Shaped(w, t)
    ensures var (w', ok) := Resume(w, t);
            Inv(w') && ok == Stands(w, t, S.Suspended) && if ok then Moved(w, w', t, S.Ready, -1) else w' == w
  {
    hide S.Inv, S.Insert, Distinct, DelRows;
    ShapedIs(w, t);
    if Stands(w, t, S.Suspended) {
      S.InsertOk(w.sched, t);
      InsertStats(w.sched, t);
      assert t in w.defunct ==> Stands(w, t, S.Closed);
      OffKeeps(w, t, S.Insert(w.sched, t));
    }
  }

  /** And the head of the highest queue runs then, unless the scheduler is locked. */
  lemma {:induction false} TimeoutPicks(w: World, t: Id)
    requires Inv(w) && Stands(w, t, S.Suspended)
    ensures Shaped(w, t) && S.MapOk(S.Insert(w.sched, t))
    ensures var (s, s') := (S.Insert(w.sched, t), Timeout(w, t).sched);
            var h := S.Scan(s.queues, 0);
            && s'.queues == s.queues && h < |s.queues| && s.queues[h] != []
            && s'.current == if w.sched.lock == 0 then Some(s.queues[h][0]) else w.sched.current
  {
    hide S.Inv, S.Schedule, Distinct, DelRows, S.MapOk, S.Scan;
    ShapedIs(w, t);
    S.InsertOk(w.sched, t);
    S.InvShape(w.sched);
    S.InvShape(S.Insert(w.sched, t));
    S.ScheduleOk(S.Insert(w.sched, t), w.sched.threads[t].prio);
  }

  lemma {:induction false} TimeoutOk(w: World, t: Id)
    requires Inv(w) && Stands(w, t, S.Suspended)
    ensures Shaped(w, t) && S.MapOk(S.Insert(w.sched, t)) && Inv(Timeout(w, t))
            && Moved(w, Timeout(w, t), t, S.Ready, -1)
  {
    hide S.Inv, S.Insert, S.Schedule, Distinct, DelRows, S.MapOk;
    ShapedIs(w, t);
    S.InsertOk(w.sched, t);
    InsertStats(w.sched, t);
    var s1 := S.Insert(w.sched, t);
    S.InvShape(s1);
    S.PickOk(s1);
    ScheduleStats(s1);
    assert t in w.defunct ==> Stands(w, t, S.Closed);
    OffKeeps(w, t, S.Schedule(s1));
  }

  lemma {:induction false} DetachOk(w: World, t: Id, cleanup: bool)
    requires Inv(w) && (Stands(w, t, S.Ready) || Stands(w, t, S.Suspended))
    ensures Shaped(w, t) && Inv(Detach(w, t, cleanup)) && Moved(w, Detach(w, t, cleanup), t, S.Closed, -1)
    ensures forall u :: u in Detach(w, t, cleanup).defunct <==> u in w.defunct || (cleanup && u == t)
  {
    hide S.Inv, S.Remove, Distinct, DelRows;
    ShapedIs(w, t);
    S.InvShape(w.sched);
    var (k, s) := (w.sched.threads[t].(stat := S.Closed), S.Close(w.sched, t));
    if Stands(w, t, S.Ready) {
      S.RemoveOk(w.sched, t, k);
      RemoveStats(w.sched, t, k);
    } else {
      S.SetThread(w.sched, t, k);
    }
    assert s.threads == w.sched.threads[t := k];
    assert t in w.defunct ==> Stands(w, t, S.Closed);
    OffKeeps(w, t, s);
    var w1 := w.(sched := s, lists := DelRows(w.lists, t));
    if cleanup { EndsOk(w1, t); }
    forall l: nat, u ensures On(Detach(w, t, cleanup), l, u) <==> On(w, l, u) && u != t {
      assert On(w1, l, u) <==> On(w, l, u) && u != t;
    }
  }

  lemma {:induction false} EndsOk(w: World, t: Id)
    requires Inv(w) && Stands(w, t, S.Closed) && t !in w.defunct
    ensures Inv(w.(defunct := [t] + w.defunct))
  {
    hide S.Inv;
    var w' := w.(defunct := [t] + w.defunct);
    forall l: nat, u ensures On(w', l, u) <==> On(w, l, u) { }
    forall l: nat, u | On(w', l, u) ensures Stands(w', u, S.Suspended) { assert Stands(w, u, S.Suspended); }
    forall u | u in w'.defunct ensures Stands(w', u, S.Closed) { assert u == t || Stands(w, u, S.Closed); }
  }

  // ---- whole runs ----

  datatype Op = DoBlock(t: Id, l: nat, flag: I.Flag) | DoWake(l: nat) | DoResume(t: Id) | DoTimeout(t: Id)
              | DoDetach(t: Id, cleanup: bool) | DoReap | DoSched(op: S.Op)

  /** Only a running thread suspends itself on an object, only a waiting thread's timer runs, and a thread
      is ended once; the scheduler's own operations are those that do not unlink a waiting thread. */
  ghost predicate Legal(w: World, op: Op) {
    match op
    case DoBlock(t, l, _) => Stands(w, t, S.Ready) && l < |w.lists|
    case DoWake(l) => l < |w.lists| && w.lists[l] != []
    case DoResume(t) => t in w.sched.threads
    case DoTimeout(t) => Stands(w, t, S.Suspended)
    case DoDetach(t, _) => Stands(w, t, S.Ready) || Stands(w, t, S.Suspended)
    case DoReap => w.defunct != []
    case DoSched(o) => S.Legal(w.sched, o) && !o.DoResume? && !o.DoClose?
  }

  /** The threads an operation names are known, so that it is defined. */
  lemma {:induction false} Defined(w: World, op: Op)
    requires Inv(w) && Legal(w, op)
    ensures op.DoBlock? || op.DoResume? || op.DoTimeout? || op.DoDetach? ==> Shaped(w, op.t)
    ensures op.DoWake? ==> Shaped(w, w.lists[op.l][0])
    ensures op.DoTimeout? ==> S.MapOk(S.Insert(w.sched, op.t))
  {
    hide S.Inv, Distinct, S.MapOk, S.Insert;
    match op
    case DoBlock(t, _, _) => ShapedIs(w, t);
    case DoWake(l) => assert On(w, l, w.lists[l][0]); ShapedIs(w, w.lists[l][0]);
    case DoResume(t) => ShapedIs(w, t);
    case DoTimeout(t) => TimeoutOk(w, t);
    case DoDetach(t, _) => ShapedIs(w, t);
    case _ =>
  }

  ghost function Step(w: World, op: Op): World {
    if !(Inv(w) && Legal(w, op)) then w
    else
    Defined(w, op);
    match op
    case DoBlock(t, l, flag) => Block(w, t, l, flag)
    case DoWake(l) => Resume(w, w.lists[l][0]).0
    case DoResume(t) => Resume(w, t).0
    case DoTimeout(t) => Timeout(w, t)
    case DoDetach(t, cleanup) => Detach(w, t, cleanup)
    case DoReap => w.(defunct := w.defunct[1..])
    case DoSched(o) => w.(sched := S.Step(w.sched, o))
  }

  lemma {:induction false} ReapOk(w: World)
    requires Inv(w) && w.defunct != []
    ensures Inv(w.(defunct := w.defunct[1..]))
  {
    hide S.Inv;
    var w' := w.(defunct := w.defunct[1..]);
    forall l: nat, u ensures On(w', l, u) <==> On(w, l, u) { }
    forall l: nat, u | On(w', l, u) ensures Stands(w', u, S.Suspended) { assert Stands(w, u, S.Suspended); }
    forall u | u in w'.defunct ensures Stands(w', u, S.Closed) { assert Stands(w, u, S.Closed); }
  }

  lemma {:induction false} SchedOk(w: World, o: S.Op)
    requires Inv(w) && S.Legal(w.sched, o) && !o.DoResume? && !o.DoClose?
    ensures Inv(w.(sched := S.Step(w.sched, o)))
  {
    hide S.Inv, S.Remove, S.Insert, S.Yield, S.Tick, S.Schedule, S.ChangePriority, S.MapOk, Distinct;
    var (s, s') := (w.sched, S.Step(w.sched, o));
    S.StepOk(s, o);
    S.InvShape(s);
    match o
    case DoSuspend(t) =>
      if s.threads[t].stat == S.Ready {
        RemoveStats(s, t, s.threads[t].(stat := S.Suspended));
        Free(w, t);
        SchedKeeps(w, s', t);
      }
    case DoStartup(t, p) =>
      InsertStats(S.Put(s, t, s.threads[t].(prio := p, stat := S.Suspended)), t);
      Free(w, t);
      SchedKeeps(w, s', t);
    case DoChange(t, p) => S.ChangeOk(s, t, p); SameKeeps(w, s');
    case DoYield => YieldStats(s); SameKeeps(w, s');
    case DoTick => TickStats(s); SameKeeps(w, s');
    case DoSchedule => ScheduleStats(s); SameKeeps(w, s');
    case DoLock => SameKeeps(w, s');
    case DoUnlock =>
      S.LockOk(s, 0);
      S.InvShape(s.(lock := 0));
      ScheduleStats(s.(lock := 0));
      SameKeeps(w, s');
  }

  /** A thread that is neither suspended nor closed is on no list. */
  lemma {:induction false} Free(w: World, t: Id)
    requires Inv(w) && !Stands(w, t, S.Suspended) && !Stands(w, t, S.Closed)
    ensures (forall l: nat :: !On(w, l, t)) && t !in w.defunct
  {
    hide S.Inv;
  }

  lemma {:induction false} StepOk(w: World, op: Op)
    requires Inv(w) && Legal(w, op)
    ensures Inv(Step(w, op))
  {
    hide S.Inv, Distinct, Block, Resume, Timeout, Detach, S.Step, S.Legal, DelRows, S.MapOk, S.Insert;
    Defined(w, op);
    match op
    case DoBlock(t, l, flag) => BlockOk(w, t, l, flag);
    case DoWake(l) => ResumeOk(w, w.lists[l][0]);
    case DoResume(t) => ResumeOk(w, t);
    case DoTimeout(t) => TimeoutOk(w, t);
    case DoDetach(t, cleanup) => DetachOk(w, t, cleanup);
    case DoReap => ReapOk(w);
    case DoSched(o) => SchedOk(w, o);
  }

  ghost predicate Reaches(w: World, ops: seq<Op>, w': World)
    decreases |ops|
  {
    if ops == [] then w' == w else Legal(w, ops[0]) && Reaches(Step(w, ops[0]), ops[1..], w')
  }

  /** Over every run no thread is in two places: a READY thread is in the queue of its priority and on no
      other list, a waiting one on one list and in no queue. */
  lemma {:induction false} RunOk(w: World, ops: seq<Op>, w': World)
    requires Inv(w) && Reaches(w, ops, w')
    ensures Inv(w')
    ensures forall t, x, y | At(w', x, t) && At(w', y, t) :: x == y
    decreases |ops|
  {
    hide Inv, Legal, Step, At;
    if ops == [] {
      forall t, x, y | At(w', x, t) && At(w', y, t) ensures x == y { OnePlace(w', t); }
    } else {
      StepOk(w, ops[0]);
      RunOk(Step(w, ops[0]), ops[1..], w');
    }
  }

  // ---- in place ----

  class WaitLists {
    const kernel: S.Kernel
    var lists: seq<seq<Id>>
    var defunct: seq<Id>

    ghost function View(): World
      reads this, kernel
    {
      World(kernel.View(), lists, defunct)
    }

    constructor (wide: bool, threads: map<Id, S.Thread>, n: nat)
      requires forall t | t in threads ::
                 && threads[t].stat == S.Start && threads[t].prio < (if wide then 256 else 32)
                 && 1 <= threads[t].remaining && 1 <= threads[t].slice
      ensures Inv(View()) && fresh(kernel) && |lists| == n
    {
      hide S.Inv, S.Init;
      kernel := new S.Kernel(wide, threads);
      lists, defunct := seq(n, _ => []), [];
    }

    /** rt_ipc_list_suspend. */
    method ListSuspend(l: nat, thread: Id, flag: I.Flag)
      requires Inv(View()) && Stands(View(), thread, S.Ready) && l < |lists|
      modifies this, kernel
      ensures Inv(View()) && old(Shaped(View(), thread)) && View() == old(Block(View(), thread, l, flag))
    {
      hide S.Inv, Distinct, I.Queued, S.Suspend;
      BlockOk(View(), thread, l, flag);
      var prio := map t | t in kernel.threads :: kernel.threads[t].prio as int;
      assert prio == Prios(kernel.View());
      var _ := kernel.ThreadSuspend(thread);
      var list := I.Suspend(lists[l], thread, prio, flag);
      lists := lists[l := list];
    }

    /** rt_thread_resume. */
    method ThreadResume(thread: Id) returns (ok: bool)
      requires Inv(View()) && thread in kernel.threads
      modifies this, kernel
      ensures Inv(View()) && old(Shaped(View(), thread)) && (View(), ok) == old(Resume(View(), thread))
    {
      hide S.Inv, Distinct, S.Insert, Del;
      ResumeOk(View(), thread);
      if kernel.threads[thread].stat != S.Suspended { return false; }
      lists := DelRows(lists, thread);
      ok := kernel.ThreadResume(thread);
    }

    /** rt_ipc_list_resume_all: the first thread is resumed until the list is empty.  All of its threads
        are READY then, and no other list has changed. */
    method ListResumeAll(l: nat)
      requires Inv(View()) && l < |lists|
      modifies this, kernel
      ensures Inv(View()) && lists == old(lists)[l := []] && defunct == old(defunct)
      ensures forall t | t in old(lists[l]) :: Stands(View(), t, S.Ready)
    {
      hide Inv, Resume, S.Insert;
      ghost var w0 := View();
      while lists[l] != []
        invariant Inv(View()) && l < |lists| && lists == w0.lists[l := lists[l]] && defunct == w0.defunct
        invariant forall t | t in w0.lists[l] :: t in lists[l] || Stands(View(), t, S.Ready)
        decreases |lists[l]|
      {
        ghost var w := View();
        var thread := lists[l][0];
        WakeFirst(w, l);
        var _ := ThreadResume(thread);
      }
    }
  }

  /** Resuming the first thread of a list shortens that list by it. */
  lemma {:induction false} WakeFirst(w: World, l: nat)
    requires Inv(w) && l < |w.lists| && w.lists[l] != []
    ensures var t := w.lists[l][0];
            && t in w.sched.threads && Shaped(w, t)
            && var w' := Resume(w, t).0;
               && w'.lists == w.lists[l := w.lists[l][1..]] && w'.defunct == w.defunct && Stands(w', t, S.Ready)
               && forall u | Stands(w, u, S.Ready) :: Stands(w', u, S.Ready)
  {
    hide S.Inv, S.Insert, Del, Distinct;
    var t := w.lists[l][0];
    assert On(w, l, t) && Stands(w, t, S.Suspended);
    ShapedIs(w, t);
    InsertStats(w.sched, t);
    var r := DelRows(w.lists, t);
    forall m | 0 <= m < |r| ensures r[m] == if m == l then w.lists[l][1..] else w.lists[m] {
      if m == l { DelHead(w.lists[l]); } else { assert !On(w, m, t); DelAbsent(w.lists[m], t); }
    }
  }
}
