/** src/scheduler.c, and the parts of src/thread.c and src/clock.c that move threads between ready queues. */
module Scheduler {
  import opened Seqs
  import opened Options
  import opened SortedList
  import opened Bits

  // A priority bitmap tells which queues are not empty: one word for 32 priorities, or a word over 32 bytes
  // for 256.

  datatype Stat = Start | Ready | Suspended | Closed

  datatype Thread = Thread(prio: nat, stat: Stat, remaining: nat, slice: nat)

  /** `queues` is rt_thread_priority_table, `group` rt_thread_ready_priority_group, `bytes`
      rt_thread_ready_table, which only the 256-priority kernel (`wide`) uses. */
  datatype Sched = Sched(wide: bool, queues: seq<seq<Id>>, group: nat, bytes: seq<nat>,
                         threads: map<Id, Thread>, current: Option<Id>, lock: nat)

  function Levels(s: Sched): nat { if s.wide then 256 else 32 }

  // ---- the bitmap ----

  function Raise(s: Sched, p: nat): Sched
    requires |s.bytes| == 32 && p < 256
  {
    if s.wide then s.(bytes := s.bytes[p / 8 := SetBit(s.bytes[p / 8], p % 8)], group := SetBit(s.group, p / 8))
    else s.(group := SetBit(s.group, p))
  }

  function Lower(s: Sched, p: nat): Sched
    requires |s.bytes| == 32 && p < 256
  {
    if s.wide then
      var b := ClearBit(s.bytes[p / 8], p % 8);
      s.(bytes := s.bytes[p / 8 := b], group := if b == 0 then ClearBit(s.group, p / 8) else s.group)
    else s.(group := ClearBit(s.group, p))
  }

  /** The search of rt_schedule. */
  function Highest(s: Sched): int
    requires s.group < 0x1_0000_0000 && |s.bytes| == 32 && forall i | 0 <= i < 32 :: s.bytes[i] < 256
  {
    var number := Ffs(s.group) - 1;
    if s.wide && 0 <= number < 32 then number * 8 + Ffs(s.bytes[number]) - 1 else number
  }

  predicate Flagged(s: Sched, p: nat)
    requires |s.bytes| == 32 && p < 256
  {
    if s.wide then Bit(s.bytes[p / 8], p % 8) else Bit(s.group, p)
  }

  /** In the wide map, a group bit stands for a byte that is not zero. */
  ghost predicate MapOk(s: Sched) {
    && |s.bytes| == 32 && s.group < 0x1_0000_0000 && (forall i | 0 <= i < 32 :: s.bytes[i] < 256)
    && (s.wide ==> forall i: nat | i < 32 :: Bit(s.group, i) <==> s.bytes[i] != 0)
  }

  lemma {:induction false} Widths()
    ensures Pow2(32) == 0x1_0000_0000 && Pow2(8) == 256
  {
    assert Pow2(8) == 256;
    assert Pow2(16) == 0x1_0000;
    assert Pow2(24) == 0x100_0000;
  }

  lemma {:induction false} RaiseOk(s: Sched, p: nat)
    requires MapOk(s) && p < Levels(s)
    ensures MapOk(Raise(s, p)) && forall x: nat | x < Levels(s) :: Flagged(Raise(s, p), x) <==> x == p || Flagged(s, x)
  {
    hide SetBit, Pow2;
    Widths();
    var s' := Raise(s, p);
    if s.wide {
      StaysBelow(s.bytes[p / 8], p % 8, 8);
      StaysBelow(s.group, p / 8, 32);
      forall i: nat ensures Bit(s'.group, i) <==> i == p / 8 || Bit(s.group, i) { SetBitIs(s.group, p / 8, i); }
      NotZero(s.bytes[p / 8], p % 8);
      forall x: nat | x < 256 ensures Flagged(s', x) <==> x == p || Flagged(s, x) {
        SetBitIs(s.bytes[p / 8], p % 8, x % 8);
      }
    } else {
      StaysBelow(s.group, p, 32);
      forall x: nat | x < 32 ensures Flagged(s', x) <==> x == p || Flagged(s, x) { SetBitIs(s.group, p, x); }
    }
  }

  lemma {:induction false} NotZero(v: nat, i: nat)
    ensures SetBit(v, i) != 0
  {
    SetBitIs(v, i, i);
    if SetBit(v, i) == 0 { ZeroBit(i); }
  }

  lemma {:induction false} LowerOk(s: Sched, p: nat)
    requires MapOk(s) && p < Levels(s)
    ensures MapOk(Lower(s, p)) && forall x: nat | x < Levels(s) :: Flagged(Lower(s, p), x) <==> x != p && Flagged(s, x)
  {
    hide ClearBit, Pow2;
    Widths();
    var s' := Lower(s, p);
    if s.wide {
      StaysBelow(s.bytes[p / 8], p % 8, 8);
      StaysBelow(s.group, p / 8, 32);
      forall i: nat ensures Bit(ClearBit(s.group, p / 8), i) <==> i != p / 8 && Bit(s.group, i) {
        ClearBitIs(s.group, p / 8, i);
      }
      if s.bytes[p / 8] == 0 { ClearZero(p % 8); }
      forall x: nat | x < 256 ensures Flagged(s', x) <==> x != p && Flagged(s, x) {
        ClearBitIs(s.bytes[p / 8], p % 8, x % 8);
      }
    } else {
      StaysBelow(s.group, p, 32);
      forall x: nat | x < 32 ensures Flagged(s', x) <==> x != p && Flagged(s, x) { ClearBitIs(s.group, p, x); }
    }
  }

  lemma {:induction false} ClearZero(i: nat)
    ensures ClearBit(0, i) == 0
    decreases i
  {
    if i > 0 { ClearZero(i - 1); }
  }

  /** Both searches find the smallest flagged priority, as a linear scan would. */
  lemma {:induction false} HighestIs(s: Sched, p: nat)
    requires MapOk(s) && p < Levels(s) && Flagged(s, p)
    ensures 0 <= Highest(s) <= p && Flagged(s, Highest(s)) && forall x: nat | x < Highest(s) :: !Flagged(s, x)
  {
    hide Ffs, Low, Pow2;
    Widths();
    FfsIs(s.group);
    if s.wide {
      if s.bytes[p / 8] == 0 { ZeroBit(p % 8); }
      assert Bit(s.group, p / 8);
      if s.group == 0 { ZeroBit(p / 8); }
      LowIs(s.group);
      var n := Low(s.group);
      LowBelow(s.group, 32);
      var b := s.bytes[n];
      assert b != 0 && n <= p / 8;
      FfsIs(b);
      LowIs(b);
      LowBelow(b, 8);
      forall x: nat | x < n * 8 + Low(b) ensures !Flagged(s, x) {
        if x / 8 < n {
          assert !Bit(s.group, x / 8);
          ZeroBit(x % 8);
        }
      }
    } else {
      if s.group == 0 { ZeroBit(p); }
      LowIs(s.group);
    }
  }

  // ---- the operations ----

  function Put(s: Sched, t: Id, k: Thread): Sched { s.(threads := s.threads[t := k]) }

  /** rt_schedule_insert_thread: to the end of the queue of its priority. */
  function Insert(s: Sched, t: Id): Sched
    requires t in s.threads && s.threads[t].prio < |s.queues| <= 256 && |s.bytes| == 32
  {
    var k := s.threads[t];
    Raise(Put(s, t, k.(stat := Ready)).(queues := s.queues[k.prio := s.queues[k.prio] + [t]]), k.prio)
  }

  /** rt_schedule_remove_thread. */
  function Remove(s: Sched, t: Id): Sched
    requires t in s.threads && s.threads[t].prio < |s.queues| <= 256 && |s.bytes| == 32
  {
    var p := s.threads[t].prio;
    var s1 := s.(queues := s.queues[p := Del(s.queues[p], t)]);
    if s1.queues[p] == [] then Lower(s1, p) else s1
  }

  /** rt_thread_suspend; the flag tells success. */
  function Suspend(s: Sched, t: Id): (Sched, bool)
    requires t in s.threads && s.threads[t].prio < |s.queues| <= 256 && |s.bytes| == 32
  {
    var k := s.threads[t];
    if k.stat != Ready then (s, false) else (Remove(Put(s, t, k.(stat := Suspended)), t), true)
  }

  /** rt_thread_resume, and rt_thread_timeout for a thread that waits. */
  function Resume(s: Sched, t: Id): (Sched, bool)
    requires t in s.threads && s.threads[t].prio < |s.queues| <= 256 && |s.bytes| == 32
  {
    if s.threads[t].stat != Suspended then (s, false) else (Insert(s, t), true)
  }

  /** rt_thread_startup at priority `p`. */
  function Startup(s: Sched, t: Id, p: nat): Sched
    requires t in s.threads && p < |s.queues| <= 256 && |s.bytes| == 32
  {
    Resume(Put(s, t, s.threads[t].(prio := p, stat := Suspended)), t).0
  }

  /** rt_thread_control with RT_THREAD_CTRL_CHANGE_PRIORITY. */
  function ChangePriority(s: Sched, t: Id, p: nat): Sched
    requires t in s.threads && s.threads[t].prio < |s.queues| <= 256 && p < |s.queues| && |s.bytes| == 32
  {
    var k := s.threads[t];
    if k.stat == Ready then Insert(Put(Remove(s, t), t, k.(prio := p)), t) else Put(s, t, k.(prio := p))
  }

  /** A thread that ends leaves the ready queue. */
  function Close(s: Sched, t: Id): Sched
    requires t in s.threads && s.threads[t].prio < |s.queues| <= 256 && |s.bytes| == 32
  {
    var k := s.threads[t];
    if k.stat == Ready then Remove(Put(s, t, k.(stat := Closed)), t) else Put(s, t, k.(stat := Closed))
  }

  /** rt_schedule. */
  function Schedule(s: Sched): Sched
    requires MapOk(s)
  {
    var h := Highest(s);
    if s.lock == 0 && 0 <= h < |s.queues| && s.queues[h] != [] then s.(current := Some(s.queues[h][0])) else s
  }

  /** rt_thread_yield: to the end of its queue, unless it is alone there. */
  function Yield(s: Sched): Sched
    requires MapOk(s)
  {
    if s.current.None? || s.current.value !in s.threads then s
    else
      var (t, k) := (s.current.value, s.threads[s.current.value]);
      if k.stat == Ready && k.prio < |s.queues| && |s.queues[k.prio]| > 1 then
        Schedule(s.(queues := s.queues[k.prio := Del(s.queues[k.prio], t) + [t]]))
      else s
  }

  /** The time slice in rt_tick_increase. */
  function Tick(s: Sched): Sched
    requires MapOk(s)
  {
    if s.current.None? || s.current.value !in s.threads then s
    else
      var (t, k) := (s.current.value, s.threads[s.current.value]);
      if k.remaining > 1 then Put(s, t, k.(remaining := k.remaining - 1))
      else Yield(Put(s, t, k.(remaining := k.slice)))
  }

  // ---- the invariant ----

  /** A bit is set iff its queue is not empty; a queue holds exactly the READY threads of its priority,
      each once. */
  ghost predicate Inv(s: Sched) {
    && MapOk(s) && |s.queues| == Levels(s)
    && (forall p: nat | p < Levels(s) :: Flagged(s, p) <==> s.queues[p] != [])
    && (forall p: nat | p < Levels(s) :: Distinct(s.queues[p]))
    && (forall t | t in s.threads ::
       s.threads[t].prio < Levels(s) && 1 <= s.threads[t].remaining && 1 <= s.threads[t].slice)
    && (forall p: nat, t | p < Levels(s) :: t in s.queues[p] <==>
       t in s.threads && s.threads[t].stat == Ready && s.threads[t].prio == p)
  }

  lemma {:induction false} InsertOk(s: Sched, t: Id)
    requires Inv(s) && t in s.threads && s.threads[t].stat != Ready
    ensures Inv(Insert(s, t)) && Insert(s, t).current == s.current && Insert(s, t).lock == s.lock
  {
    hide Bit, SetBit, Flagged, Highest;
    var p := s.threads[t].prio;
    var s1 := Put(s, t, s.threads[t].(stat := Ready)).(queues := s.queues[p := s.queues[p] + [t]]);
    RaiseOk(s1, p);
    FlagsSame(s, s1);
    assert t !in s.queues[p];
  }

  lemma {:induction false} FlagsSame(s: Sched, s': Sched)
    requires s'.bytes == s.bytes && s'.group == s.group && s'.wide == s.wide && |s.bytes| == 32
    ensures forall p: nat | p < 256 :: Flagged(s', p) <==> Flagged(s, p)
  {
  }

  /** Taking a READY thread off its queue, when its state has been changed to `k`. */
  lemma {:induction false} RemoveOk(s: Sched, t: Id, k: Thread)
    requires Inv(s) && t in s.threads && s.threads[t].stat == Ready
    requires k.stat != Ready && k.prio == s.threads[t].prio && 1 <= k.remaining && 1 <= k.slice
    ensures Inv(Remove(Put(s, t, k), t)) && Remove(Put(s, t, k), t).threads == s.threads[t := k]
    ensures Remove(Put(s, t, k), t).wide == s.wide
  {
    hide Bit, ClearBit, Flagged, Highest, Del, Distinct, Sub;
    var p := k.prio;
    var s1 := Put(s, t, k).(queues := s.queues[p := Del(s.queues[p], t)]);
    DelMember(s.queues[p], t);
    DelIsSub(s.queues[p], t);
    DelDistinct(s.queues[p], t);
    LowerOk(s1, p);
    FlagsSame(s, s1);
    assert t in s.queues[p] && s.queues[p] != [];
  }

  lemma {:induction false} DelDistinct(row: seq<Id>, t: Id)
    requires Distinct(row)
    ensures Distinct(Del(row, t))
  {
    DelIsSub(row, t);
    SubDistinct(Del(row, t), row);
  }

  lemma {:induction false} SetThread(s: Sched, t: Id, k: Thread)
    requires Inv(s) && t in s.threads && 1 <= k.remaining && 1 <= k.slice && k.prio < Levels(s)
    requires if s.threads[t].stat == Ready then k.stat == Ready && k.prio == s.threads[t].prio else k.stat != Ready
    ensures Inv(Put(s, t, k))
  {
    hide Bit, Flagged, Highest, Distinct;
    FlagsSame(s, Put(s, t, k));
  }

  lemma {:induction false} ChangeOk(s: Sched, t: Id, p: nat)
    requires Inv(s) && t in s.threads && p < Levels(s)
    ensures Inv(ChangePriority(s, t, p)) && ChangePriority(s, t, p).threads == s.threads[t := s.threads[t].(prio := p)]
  {
    hide Inv, Insert, Remove;
    InvShape(s);
    var k := s.threads[t];
    if k.stat == Ready {
      var off := k.(stat := Suspended);
      RemoveOk(s, t, off);
      var s1 := Remove(Put(s, t, off), t);
      SetThread(s1, t, off.(prio := p));
      InsertOk(Put(s1, t, off.(prio := p)), t);
      InvShape(s1);
      RemoveStat(s, t, off);
      InsertStat(Remove(s, t), t, k.(prio := p), off.(prio := p));
      assert s1.threads[t := off.(prio := p)] == Remove(s, t).threads[t := off.(prio := p)];
      InsertThreads(Put(s1, t, off.(prio := p)), t);
    } else {
      SetThread(s, t, k.(prio := p));
    }
  }

  /** Neither queue operation looks at the thread's state. */
  lemma {:induction false} RemoveStat(s: Sched, t: Id, k: Thread)
    requires t in s.threads && s.threads[t].prio == k.prio < |s.queues| <= 256 && |s.bytes| == 32
    ensures var (a, b) := (Remove(s, t), Remove(Put(s, t, k), t));
            b == Put(a, t, k) && a.threads == s.threads && |a.queues| == |s.queues| && |a.bytes| == 32
  {
  }

  lemma {:induction false} InsertStat(s: Sched, t: Id, k: Thread, k': Thread)
    requires k.prio < |s.queues| <= 256 && |s.bytes| == 32 && k' == k.(stat := k'.stat)
    ensures Insert(Put(s, t, k), t) == Insert(Put(s, t, k'), t)
  {
    assert s.threads[t := k][t := k.(stat := Ready)] == s.threads[t := k'][t := k.(stat := Ready)];
  }

  lemma {:induction false} InsertThreads(s: Sched, t: Id)
    requires t in s.threads && s.threads[t].prio < |s.queues| <= 256 && |s.bytes| == 32
    ensures Insert(s, t).threads == s.threads[t := s.threads[t].(stat := Ready)]
  {
  }

  /** Raising a flag that was lowered gives the same bitmap, on both levels. */
  lemma {:induction false} RaiseAgain(s: Sched, p: nat)
    requires MapOk(s) && p < Levels(s) && Flagged(s, p)
    ensures |Lower(s, p).bytes| == 32 && Raise(Lower(s, p), p) == s && Raise(s, p) == s
  {
    hide SetBit, ClearBit, Bit;
    if s.wide {
      if s.bytes[p / 8] == 0 { ZeroBit(p % 8); }
      SetAgain(s.bytes[p / 8], p % 8);
      SetAgain(s.group, p / 8);
      var b := ClearBit(s.bytes[p / 8], p % 8);
      assert s.bytes[p / 8 := b][p / 8 := SetBit(b, p % 8)] == s.bytes;
    } else {
      SetAgain(s.group, p);
    }
  }

  /** Suspending and resuming a READY thread only moves it to the end of its queue: thread, bitmap and
      every other queue are as before. */
  lemma {:induction false} SuspendThenResume(s: Sched, t: Id)
    requires Inv(s) && t in s.threads && s.threads[t].stat == Ready
    ensures s.threads[t].prio < |s.queues| <= 256 && |s.bytes| == 32
    ensures var (p, (s1, ok)) := (s.threads[t].prio, Suspend(s, t));
            && ok && t in s1.threads && s1.threads[t].prio == p < |s1.queues| <= 256 && |s1.bytes| == 32
            && s1.threads[t].stat == Suspended && t !in s1.queues[p]
            && Resume(s1, t) == (s.(queues := s.queues[p := Del(s.queues[p], t) + [t]]), true)
  {
    hide Bit, SetBit, ClearBit, Distinct, Del, MapOk, Flagged;
    InvShape(s);
    var (k, p) := (s.threads[t], s.threads[t].prio);
    var (q, off) := (Del(s.queues[p], t), k.(stat := Suspended));
    assert t in s.queues[p] && Flagged(s, p);
    DelMember(s.queues[p], t);
    RaiseAgain(s, p);
    assert s.threads[t := off][t := k] == s.threads;
    assert s.queues[p := q][p := q + [t]] == s.queues[p := q + [t]];
  }

  lemma {:induction false} MapShape(s: Sched)
    requires MapOk(s)
    ensures |s.bytes| == 32 && s.group < 0x1_0000_0000 && forall i | 0 <= i < 32 :: s.bytes[i] < 256
  {
  }

  /** The first nonempty queue from `p` on. */
  function Scan(queues: seq<seq<Id>>, p: nat): nat
    decreases |queues| - p
  {
    if p >= |queues| || queues[p] != [] then p else Scan(queues, p + 1)
  }

  lemma {:induction false} ScanIs(queues: seq<seq<Id>>, p: nat, h: nat)
    requires p <= h < |queues| && queues[h] != [] && forall x: nat | p <= x < h :: queues[x] == []
    ensures Scan(queues, p) == h
    decreases h - p
  {
    if p < h { ScanIs(queues, p + 1, h); }
  }

  /** With the scheduler unlocked rt_schedule selects the head of the highest nonempty queue, as a
      linear scan of the queues would; the queues do not change. */
  lemma {:induction false} ScheduleOk(s: Sched, p: nat)
    requires Inv(s) && p < Levels(s) && s.queues[p] != []
    ensures var (s', h) := (Schedule(s), Scan(s.queues, 0));
            && Inv(s') && h <= p && s.queues[h] != []
            && s' == if s.lock == 0 then s.(current := Some(s.queues[h][0])) else s
  {
    hide Bit, Flagged, Highest, Distinct, MapOk;
    MapShape(s);
    assert Flagged(s, p);
    HighestIs(s, p);
    ScanIs(s.queues, 0, Highest(s));
    FlagsSame(s, s.(current := Some(s.queues[Highest(s)][0])));
    MapSame(s, s.(current := Some(s.queues[Highest(s)][0])));
  }

  lemma {:induction false} MapSame(s: Sched, s': Sched)
    requires MapOk(s) && s'.bytes == s.bytes && s'.group == s.group && s'.wide == s.wide
    ensures MapOk(s')
  {
  }

  lemma {:induction false} Rotated(q: seq<Id>, t: Id)
    requires Distinct(q) && t in q
    ensures Distinct(Del(q, t) + [t]) && forall u :: u in Del(q, t) + [t] <==> u in q
  {
    DelMember(q, t);
    DelDistinct(q, t);
  }

  lemma {:induction false} YieldOk(s: Sched)
    requires Inv(s)
    ensures Inv(Yield(s))
  {
    hide Bit, Flagged, Highest, Distinct, MapOk, Del, Schedule;
    MapShape(s);
    if s.current.Some? && s.current.value in s.threads {
      var (t, k) := (s.current.value, s.threads[s.current.value]);
      if k.stat == Ready && |s.queues[k.prio]| > 1 {
        var s1 := s.(queues := s.queues[k.prio := Del(s.queues[k.prio], t) + [t]]);
        Rotated(s.queues[k.prio], t);
        FlagsSame(s, s1);
        MapSame(s, s1);
        assert Inv(s1);
        ScheduleOk(s1, k.prio);
      }
    }
  }

  lemma {:induction false} TickOk(s: Sched)
    requires Inv(s)
    ensures Inv(Tick(s))
  {
    hide Bit, Flagged, Highest, Distinct, MapOk, Yield;
    if s.current.Some? && s.current.value in s.threads {
      var (t, k) := (s.current.value, s.threads[s.current.value]);
      if k.remaining > 1 {
        SetThread(s, t, k.(remaining := k.remaining - 1));
      } else {
        SetThread(s, t, k.(remaining := k.slice));
        YieldOk(Put(s, t, k.(remaining := k.slice)));
      }
    }
  }

  // ---- whole runs ----

  datatype Op = DoSuspend(t: Id) | DoResume(t: Id) | DoStartup(t: Id, p: nat) | DoChange(t: Id, p: nat) | DoClose(t: Id)
              | DoYield | DoTick | DoSchedule | DoLock | DoUnlock

  /** The nesting after rt_exit_critical, which may be one too many. */
  function Unlocked(s: Sched): nat { if s.lock <= 1 then 0 else s.lock - 1 }

  ghost predicate Legal(s: Sched, op: Op) {
    match op
    case DoSuspend(t) => t in s.threads
    case DoResume(t) => t in s.threads
    case DoStartup(t, p) => t in s.threads && s.threads[t].stat == Start && p < Levels(s)
    case DoChange(t, p) => t in s.threads && p < Levels(s)
    case DoClose(t) => t in s.threads
    case _ => true
  }

  ghost function Step(s: Sched, op: Op): Sched {
    if !(Inv(s) && Legal(s, op)) then s
    else
    match op
    case DoSuspend(t) => Suspend(s, t).0
    case DoResume(t) => Resume(s, t).0
    case DoStartup(t, p) => Startup(s, t, p)
    case DoChange(t, p) => ChangePriority(s, t, p)
    case DoClose(t) => Close(s, t)
    case DoYield => Yield(s)
    case DoTick => Tick(s)
    case DoSchedule => Schedule(s)
    case DoLock => s.(lock := s.lock + 1)
    case DoUnlock => if s.lock <= 1 then Schedule(s.(lock := 0)) else s.(lock := s.lock - 1)
  }

  /** A started thread is READY at its priority, last in its queue, with its slice as it was. */
  lemma {:induction false} StartupOk(s: Sched, t: Id, p: nat)
    requires Inv(s) && Legal(s, DoStartup(t, p))
    ensures p < |s.queues| <= 256 && |s.bytes| == 32
    ensures var s' := Startup(s, t, p);
            && Inv(s') && s'.queues == s.queues[p := s.queues[p] + [t]] && s'.current == s.current && s'.lock == s.lock
            && s'.threads == s.threads[t := s.threads[t].(prio := p, stat := Ready)]
  {
    hide Inv, MapOk, SetBit;
    InvShape(s);
    var s1 := Put(s, t, s.threads[t].(prio := p, stat := Suspended));
    SetThread(s, t, s.threads[t].(prio := p, stat := Suspended));
    InsertOk(s1, t);
    InsertThreads(s1, t);
    assert s1.threads[t := s1.threads[t].(stat := Ready)] == s.threads[t := s.threads[t].(prio := p, stat := Ready)];
  }

  /** A suspended or ended thread is in that state, out of its queue, and nobody else is touched. */
  lemma {:induction false} StopsOk(s: Sched, t: Id, close: bool)
    requires Inv(s) && t in s.threads && (s.threads[t].stat == Ready || close)
    ensures s.threads[t].prio < |s.queues| <= 256 && |s.bytes| == 32
    ensures var s' := if close then Close(s, t) else Suspend(s, t).0;
            && s'.threads == s.threads[t := s.threads[t].(stat := if close then Closed else Suspended)]
            && s'.current == s.current && s'.lock == s.lock && |s'.queues| == |s.queues|
            && forall p: nat | p < |s.queues| :: Sub(s'.queues[p], s.queues[p])
                 && forall u :: u in s'.queues[p] <==> u in s.queues[p] && u != t
  {
    hide MapOk, Flagged, Distinct, Del, Sub, ClearBit;
    InvShape(s);
    forall p: nat | p < |s.queues| ensures Sub(s.queues[p], s.queues[p]) { SubSelf(s.queues[p]); }
    var q := s.queues[s.threads[t].prio];
    DelMember(q, t);
    DelIsSub(q, t);
  }

  lemma {:induction false} PickOk(s: Sched)
    requires Inv(s)
    ensures Inv(Schedule(s))
  {
    hide Bit, Flagged, Highest, Distinct;
    FlagsSame(s, Schedule(s));
  }

  lemma {:induction false} LockOk(s: Sched, n: nat)
    requires Inv(s)
    ensures Inv(s.(lock := n))
  {
    hide Bit, Flagged, Highest, Distinct;
    FlagsSame(s, s.(lock := n));
  }

  lemma {:induction false} StepOk(s: Sched, op: Op)
    requires Inv(s) && Legal(s, op)
    ensures Inv(Step(s, op))
  {
    hide Inv, Insert, Remove, Yield, Tick, Schedule, ChangePriority, MapOk;
    InvShape(s);
    match op
    case DoSuspend(t) => if s.threads[t].stat == Ready { RemoveOk(s, t, s.threads[t].(stat := Suspended)); }
    case DoResume(t) => if s.threads[t].stat == Suspended { InsertOk(s, t); }
    case DoStartup(t, p) =>
      SetThread(s, t, s.threads[t].(prio := p, stat := Suspended));
      InsertOk(Put(s, t, s.threads[t].(prio := p, stat := Suspended)), t);
    case DoChange(t, p) => ChangeOk(s, t, p);
    case DoClose(t) =>
      if s.threads[t].stat == Ready { RemoveOk(s, t, s.threads[t].(stat := Closed)); }
      else { SetThread(s, t, s.threads[t].(stat := Closed)); }
    case DoYield => YieldOk(s);
    case DoTick => TickOk(s);
    case DoSchedule => PickOk(s);
    case DoLock => LockOk(s, s.lock + 1);
    case DoUnlock =>
      LockOk(s, Unlocked(s));
      if s.lock <= 1 { PickOk(s.(lock := 0)); }
  }

  lemma {:induction false} InvShape(s: Sched)
    requires Inv(s)
    ensures MapOk(s) && |s.bytes| == 32 && |s.queues| == Levels(s)
    ensures forall t | t in s.threads ::
            s.threads[t].prio < Levels(s) && 1 <= s.threads[t].remaining && 1 <= s.threads[t].slice
  {
  }

  ghost predicate Reaches(s: Sched, ops: seq<Op>, s': Sched)
    decreases |ops|
  {
    if ops == [] then s' == s else Legal(s, ops[0]) && Reaches(Step(s, ops[0]), ops[1..], s')
  }

  /** Over every run the bitmap tells the nonempty queues and the queues hold the READY threads. */
  lemma {:induction false} RunOk(s: Sched, ops: seq<Op>, s': Sched)
    requires Inv(s) && Reaches(s, ops, s')
    ensures Inv(s')
    decreases |ops|
  {
    hide Inv, Legal, Step;
    if ops != [] {
      StepOk(s, ops[0]);
      RunOk(Step(s, ops[0]), ops[1..], s');
    }
  }

  // ---- round robin ----

  /** The head of the highest nonempty queue, at priority `h`, runs. */
  ghost predicate Running(s: Sched, h: nat) {
    && Inv(s) && h == Scan(s.queues, 0) < Levels(s) && s.queues[h] != []
    && s.current == Some(s.queues[h][0])
  }

  function Left(s: Sched, t: Id): nat { if t in s.threads then s.threads[t].remaining else 0 }

  function Slice(s: Sched, t: Id): nat { if t in s.threads then s.threads[t].slice else 0 }

  /** The ticks left to the threads of a list, together. */
  function Wait(s: Sched, ts: seq<Id>): nat {
    if ts == [] then 0 else Left(s, ts[0]) + Wait(s, ts[1..])
  }

  lemma {:induction false} TopThread(s: Sched, h: nat)
    requires Running(s, h)
    ensures var t := s.queues[h][0];
            && t in s.threads && s.threads[t].stat == Ready && s.threads[t].prio == h && s.threads[t].remaining >= 1
            && t !in s.queues[h][1..] && Distinct(s.queues[h]) && MapOk(s)
  {
    hide Flagged, MapOk;
    var q := s.queues[h];
    assert q[0] in q;
  }

  lemma {:induction false} ScanSame(a: seq<seq<Id>>, b: seq<seq<Id>>, p: nat)
    requires |a| == |b| && forall i | 0 <= i < |a| :: a[i] == [] <==> b[i] == []
    ensures Scan(a, p) == Scan(b, p)
    decreases |a| - p
  {
    if p < |a| && a[p] == [] { ScanSame(a, b, p + 1); }
  }

  /** A tick that is not the last of the slice. */
  lemma {:induction false} TickStays(s: Sched, h: nat)
    requires Running(s, h) && Left(s, s.queues[h][0]) > 1
    ensures var (s', t) := (Tick(s), s.queues[h][0]);
            && Running(s', h) && s'.queues == s.queues && Left(s', t) == Left(s, t) - 1
            && (forall u | u != t :: Left(s', u) == Left(s, u)) && forall u :: Slice(s', u) == Slice(s, u)
  {
    hide Inv, MapOk, Yield;
    TopThread(s, h);
    TickOk(s);
  }

  /** The last tick of the slice: the thread has a full slice again and stands last, and the next one runs. */
  lemma {:induction false} TickTurns(s: Sched, h: nat)
    requires Running(s, h) && Left(s, s.queues[h][0]) == 1 && s.lock == 0
    ensures var (s', t) := (Tick(s), s.queues[h][0]);
            && Running(s', h) && s'.queues == s.queues[h := s.queues[h][1..] + [t]]
            && Left(s', t) == Slice(s, t) && (forall u | u != t :: Left(s', u) == Left(s, u))
            && forall u :: Slice(s', u) == Slice(s, u)
  {
    hide MapOk, Flagged, Schedule, Distinct, Del;
    TopThread(s, h);
    var (q, t) := (s.queues[h], s.queues[h][0]);
    var s1 := Put(s, t, s.threads[t].(remaining := s.threads[t].slice));
    SetThread(s, t, s.threads[t].(remaining := s.threads[t].slice));
    TickOk(s);
    if |q| > 1 {
      DelHead(q);
      var s2 := s1.(queues := s.queues[h := q[1..] + [t]]);
      RotatedInv(s1, h);
      ScanSame(s.queues, s2.queues, 0);
      ScheduleOk(s2, h);
    } else {
      assert q[1..] + [t] == q;
    }
  }

  lemma {:induction false} RotatedInv(s: Sched, h: nat)
    requires Inv(s) && h < Levels(s) && s.queues[h] != []
    ensures Inv(s.(queues := s.queues[h := s.queues[h][1..] + [s.queues[h][0]]]))
  {
    hide MapOk, Flagged, Del;
    MapShape(s);
    var (q, t) := (s.queues[h], s.queues[h][0]);
    assert q == [t] + q[1..] && t in q;
    var s' := s.(queues := s.queues[h := q[1..] + [t]]);
    FlagsSame(s, s');
    MapSame(s, s');
  }

  lemma {:induction false} WaitSame(s: Sched, s': Sched, ts: seq<Id>)
    requires forall t | t in ts :: Left(s', t) == Left(s, t)
    ensures Wait(s', ts) == Wait(s, ts)
    decreases |ts|
  {
    if ts != [] { WaitSame(s, s', ts[1..]); }
  }

  /** The first thread of the queue has had its turn. */
  lemma {:induction false} WaitTurn(s: Sched, s': Sched, q: seq<Id>, i: nat)
    requires 0 < i < |q| && q[0] !in q[1..] && forall u | u != q[0] :: Left(s', u) == Left(s, u)
    ensures var q' := q[1..] + [q[0]];
            && Wait(s, q[..i]) == Left(s, q[0]) + Wait(s', q'[..i - 1]) && q'[i - 1] == q[i]
            && q[0] in q[..i] && forall u | u in q'[..i - 1] :: u in q[..i]
  {
    var q' := q[1..] + [q[0]];
    assert q'[..i - 1] == q[1..i] && q[..i][1..] == q[1..i] && q[..i][0] == q[0];
    forall u | u in q[1..i] ensures u in q[1..] && u in q[..i] { }
    WaitSame(s, s', q[1..i]);
  }

  lemma {:induction false} WaitTick(s: Sched, s': Sched, q: seq<Id>, i: nat)
    requires 0 < i < |q| && q[0] !in q[1..] && Left(s', q[0]) == Left(s, q[0]) - 1
    requires forall u | u != q[0] :: Left(s', u) == Left(s, u)
    ensures Wait(s', q[..i]) == Wait(s, q[..i]) - 1
  {
    assert q[..i][1..] == q[1..i] && q[..i][0] == q[0];
    forall u | u in q[1..i] ensures u in q[1..] { }
    WaitSame(s, s', q[1..i]);
  }

  /** Thread `t` stands in queue `h` and not behind `u`. */
  ghost predicate Ahead(s: Sched, h: nat, t: Id, u: Id) {
    h < |s.queues| && exists i, j | 0 <= i <= j < |s.queues[h]| :: s.queues[h][i] == t && s.queues[h][j] == u
  }

  /** The operation neither makes a thread ready above priority `h` nor touches `u` or a thread ahead of
      it in queue `h`: anything may happen at lower priorities, and behind `u`.  The running thread does
      not yield of itself, and the scheduler is not locked when a slice ends. */
  ghost predicate Calm(s: Sched, op: Op, h: nat, u: Id) {
    Legal(s, op) &&
    match op
    case DoSuspend(t) => !Ahead(s, h, t, u)
    case DoResume(t) => s.threads[t].stat == Suspended ==> h <= s.threads[t].prio
    case DoStartup(t, p) => h <= p
    case DoChange(t, p) => s.threads[t].stat == Ready ==> !Ahead(s, h, t, u) && h <= p
    case DoClose(t) => !Ahead(s, h, t, u)
    case DoYield => false
    case DoTick => s.current.Some? && Left(s, s.current.value) <= 1 ==> s.lock == 0
    case _ => true
  }

  ghost predicate CalmRun(s: Sched, ops: seq<Op>, h: nat, u: Id)
    decreases |ops|
  {
    ops == [] || (Calm(s, ops[0], h, u) && CalmRun(Step(s, ops[0]), ops[1..], h, u))
  }

  function TickCount(ops: seq<Op>): nat {
    if ops == [] then 0 else (if ops[0].DoTick? then 1 else 0) + TickCount(ops[1..])
  }

  /** Queue `h` is the first that is not empty and has a position `i`. */
  ghost predicate Top(s: Sched, h: nat, i: nat) {
    && h < |s.queues| <= 256 && |s.bytes| == 32 && i < |s.queues[h]|
    && forall x: nat | x < h :: s.queues[x] == []
  }

  /** Up to position `i`, queue `h` is as before, and everybody has the ticks it had. */
  ghost predicate Kept(s: Sched, s': Sched, h: nat, i: nat) {
    && Top(s, h, i) && Top(s', h, i) && s'.queues[h][..i + 1] == s.queues[h][..i + 1]
    && |s'.queues| == |s.queues| && s'.current == s.current
    && forall u :: Left(s', u) == Left(s, u)
  }

  lemma {:induction false} PutKept(s: Sched, t: Id, k: Thread, h: nat, i: nat)
    requires Top(s, h, i) && t in s.threads && k.remaining == s.threads[t].remaining
    ensures Kept(s, Put(s, t, k), h, i)
  {
  }

  lemma {:induction false} InsertKept(s: Sched, t: Id, h: nat, i: nat)
    requires Top(s, h, i) && t in s.threads && h <= s.threads[t].prio < |s.queues|
    ensures Kept(s, Insert(s, t), h, i)
  {
    hide SetBit;
    var (q, q') := (s.queues[h], Insert(s, t).queues[h]);
    assert q'[..i + 1] == q[..i + 1];
  }

  lemma {:induction false} RemoveKept(s: Sched, t: Id, h: nat, i: nat)
    requires Top(s, h, i) && t in s.threads && s.threads[t].prio < |s.queues| && t !in s.queues[h][..i + 1]
    ensures Kept(s, Remove(s, t), h, i)
  {
    hide ClearBit, Del;
    DelPrefix(s.queues[h], t, i + 1);
    assert Del([], t) == [] by { DelNone(t); }
  }

  lemma {:induction false} DelNone(t: Id)
    ensures Del([], t) == []
  {
  }

  lemma {:induction false} NotAhead(s: Sched, h: nat, i: nat, t: Id)
    requires h < |s.queues| && i < |s.queues[h]| && !Ahead(s, h, t, s.queues[h][i])
    ensures t !in s.queues[h][..i + 1]
  {
    var q := s.queues[h];
    forall j: nat | j < i + 1 ensures q[j] != t { }
  }

  lemma {:induction false} ChangeKept(s: Sched, t: Id, p: nat, h: nat, i: nat)
    requires Top(s, h, i) && t in s.threads && s.threads[t].prio < |s.queues| && h <= p < |s.queues|
    requires s.threads[t].stat == Ready && t !in s.queues[h][..i + 1]
    ensures Kept(s, ChangePriority(s, t, p), h, i)
  {
    hide Insert, Left;
    var k := s.threads[t];
    RemoveKept(s, t, h, i);
    var s1 := Remove(s, t);
    assert s1.threads == s.threads;
    PutKept(s1, t, k.(prio := p), h, i);
    InsertKept(Put(s1, t, k.(prio := p)), t, h, i);
  }

  /** An operation that keeps the head of the top queue keeps who runs. */
  lemma {:induction false} KeptRuns(s: Sched, s': Sched, h: nat, i: nat)
    requires Running(s, h) && Inv(s') && s'.wide == s.wide && Kept(s, s', h, i)
    ensures Running(s', h)
  {
    hide MapOk, Flagged, Distinct;
    assert s'.queues[h][0] == s'.queues[h][..i + 1][0] == s.queues[h][..i + 1][0] == s.queues[h][0];
    ScanIs(s'.queues, 0, h);
  }

  lemma {:induction false} RunningTop(s: Sched, h: nat, i: nat)
    requires Running(s, h) && i < |s.queues[h]|
    ensures Top(s, h, i) && forall t | t in s.threads :: s.threads[t].prio < |s.queues|
  {
    hide MapOk, Flagged, Distinct;
    InvShape(s);
    ScanFirst(s.queues, 0);
  }

  lemma {:induction false} ScanFirst(queues: seq<seq<Id>>, p: nat)
    ensures forall x: nat | p <= x < Scan(queues, p) && x < |queues| :: queues[x] == []
    decreases |queues| - p
  {
    if p < |queues| && queues[p] == [] { ScanFirst(queues, p + 1); }
  }

  /** Between ticks, what the thread at position `i` waits for does not change. */
  lemma {:induction false} CalmKeeps(s: Sched, op: Op, h: nat, i: nat)
    requires Running(s, h) && i < |s.queues[h]| && Calm(s, op, h, s.queues[h][i]) && !op.DoTick?
    ensures Running(Step(s, op), h) && Kept(s, Step(s, op), h, i)
  {
    hide Inv, Insert, Remove, Yield, Tick, Schedule, ChangePriority, MapOk, Running, Kept, Top, Ahead, Left;
    RunningIs(s, h);
    RunningTop(s, h, i);
    TopIs(s, h, i);
    InvShape(s);
    var s' := Step(s, op);
    match op {
      case DoSuspend(t) =>
        var k := s.threads[t].(stat := Suspended);
        NotAhead(s, h, i, t);
        PutKept(s, t, k, h, i);
        if s.threads[t].stat == Ready { OffKept(s, t, k, h, i); } else { KeptSelf(s, h, i); }
      case DoResume(t) => if s.threads[t].stat == Suspended { InsertKept(s, t, h, i); } else { KeptSelf(s, h, i); }
      case DoStartup(t, p) =>
        var s1 := Put(s, t, s.threads[t].(prio := p, stat := Suspended));
        PutKept(s, t, s.threads[t].(prio := p, stat := Suspended), h, i);
        KeptTop(s, s1, h, i);
        InsertKept(s1, t, h, i);
        KeptTrans(s, s1, s', h, i);
      case DoChange(t, p) =>
        if s.threads[t].stat == Ready {
          NotAhead(s, h, i, t);
          ChangeKept(s, t, p, h, i);
        } else {
          PutKept(s, t, s.threads[t].(prio := p), h, i);
          ChangeIdle(s, t, p);
        }
      case DoClose(t) =>
        var k := s.threads[t].(stat := Closed);
        NotAhead(s, h, i, t);
        PutKept(s, t, k, h, i);
        if s.threads[t].stat == Ready { OffKept(s, t, k, h, i); }
      case DoSchedule =>
        KeptSelf(s, h, i);
        ScheduleSame(s, h);
      case DoLock => LockKept(s, h, i, s.lock + 1);
      case DoUnlock =>
        LockKept(s, h, i, Unlocked(s));
        ScheduleSame(s.(lock := Unlocked(s)), h);
    }
    StepOk(s, op);
    StepWide(s, op);
    KeptRuns(s, s', h, i);
  }

  lemma {:induction false} RunningIs(s: Sched, h: nat)
    requires Running(s, h)
    ensures Inv(s) && h < |s.queues|
  {
  }

  lemma {:induction false} TopIs(s: Sched, h: nat, i: nat)
    requires Top(s, h, i)
    ensures h < |s.queues| <= 256 && |s.bytes| == 32 && i < |s.queues[h]|
  {
  }

  lemma {:induction false} KeptTop(s: Sched, s': Sched, h: nat, i: nat)
    requires Kept(s, s', h, i)
    ensures Top(s', h, i)
  {
  }

  lemma {:induction false} KeptSelf(s: Sched, h: nat, i: nat)
    requires Top(s, h, i)
    ensures Kept(s, s, h, i)
  {
  }

  lemma {:induction false} KeptTrans(s: Sched, s1: Sched, s': Sched, h: nat, i: nat)
    requires Kept(s, s1, h, i) && Kept(s1, s', h, i)
    ensures Kept(s, s', h, i)
  {
    hide Left;
  }

  lemma {:induction false} OffKept(s: Sched, t: Id, k: Thread, h: nat, i: nat)
    requires Top(s, h, i) && t in s.threads && k.prio == s.threads[t].prio < |s.queues| && t !in s.queues[h][..i + 1]
    requires k.remaining == s.threads[t].remaining
    ensures Kept(s, Remove(Put(s, t, k), t), h, i)
  {
    hide Left;
    PutKept(s, t, k, h, i);
    RemoveKept(Put(s, t, k), t, h, i);
    KeptTrans(s, Put(s, t, k), Remove(Put(s, t, k), t), h, i);
  }

  lemma {:induction false} ChangeIdle(s: Sched, t: Id, p: nat)
    requires t in s.threads && s.threads[t].prio < |s.queues| <= 256 && p < |s.queues| && |s.bytes| == 32
    requires s.threads[t].stat != Ready
    ensures ChangePriority(s, t, p) == Put(s, t, s.threads[t].(prio := p))
  {
  }

  lemma {:induction false} ScheduleSame(s: Sched, h: nat)
    requires Running(s, h)
    ensures Schedule(s) == s
  {
    hide Inv, MapOk;
    ScheduleOk(s, h);
  }

  lemma {:induction false} LockKept(s: Sched, h: nat, i: nat, n: nat)
    requires Running(s, h) && Top(s, h, i)
    ensures Running(s.(lock := n), h) && Kept(s, s.(lock := n), h, i) && MapOk(s.(lock := n))
  {
    hide Inv, MapOk;
    LockOk(s, n);
    InvShape(s.(lock := n));
  }

  lemma {:induction false} StepWide(s: Sched, op: Op)
    requires Inv(s) && Legal(s, op)
    ensures Step(s, op).wide == s.wide
  {
    hide Inv, MapOk, SetBit, ClearBit, Highest;
    InvShape(s);
  }

  /** Round robin.  Whatever happens at lower priorities and behind the thread at position `i` of the
      running queue: that thread becomes current with exactly the tick at which those ahead of it have
      used up what was left of their slices, and until then one of them runs. */
  lemma {:induction false} RoundRobin(s: Sched, ops: seq<Op>, s': Sched, h: nat, i: nat)
    requires Running(s, h) && i < |s.queues[h]| && Reaches(s, ops, s') && CalmRun(s, ops, h, s.queues[h][i])
    requires TickCount(ops) <= Wait(s, s.queues[h][..i])
    ensures var (q, w) := (s.queues[h], Wait(s, s.queues[h][..i]));
            && Running(s', h) && s'.current.Some?
            && if TickCount(ops) == w then s'.current.value == q[i] else s'.current.value in q[..i]
    decreases |ops|
  {
    hide Inv, MapOk, Scan, Step, Legal, Ahead;
    RunningIs(s, h);
    TopThread(s, h);
    var q := s.queues[h];
    if ops == [] {
      if i > 0 { WaitSome(s, q, i); }
    } else {
      var s1 := Step(s, ops[0]);
      if ops[0].DoTick? {
        StepTick(s);
        if Left(s, q[0]) == 1 {
          TickTurns(s, h);
          WaitTurn(s, s1, q, i);
          RoundRobin(s1, ops[1..], s', h, i - 1);
        } else {
          TickStays(s, h);
          WaitTick(s, s1, q, i);
          RoundRobin(s1, ops[1..], s', h, i);
        }
      } else {
        CalmKeeps(s, ops[0], h, i);
        KeptWait(s, s1, h, i);
        RoundRobin(s1, ops[1..], s', h, i);
      }
    }
  }

  lemma {:induction false} WaitSome(s: Sched, q: seq<Id>, i: nat)
    requires 0 < i < |q| && Left(s, q[0]) >= 1
    ensures Wait(s, q[..i]) >= 1 && q[0] in q[..i]
  {
    assert q[..i][0] == q[0];
  }

  lemma {:induction false} StepTick(s: Sched)
    requires Inv(s)
    ensures Step(s, DoTick) == Tick(s)
  {
  }

  lemma {:induction false} KeptWait(s: Sched, s': Sched, h: nat, i: nat)
    requires Kept(s, s', h, i)
    ensures var (q, q') := (s.queues[h], s'.queues[h]);
            q'[..i] == q[..i] && q'[i] == q[i] && Wait(s', q'[..i]) == Wait(s, q[..i])
  {
    var (q, q') := (s.queues[h], s'.queues[h]);
    assert q'[..i] == q'[..i + 1][..i] && q[..i] == q[..i + 1][..i];
    assert q'[i] == q'[..i + 1][i] && q[i] == q[..i + 1][i];
    WaitSame(s, s', q[..i]);
  }

  lemma {:induction false} ArrivalRuns(s: Sched, h: nat, t: Id)
    requires Running(s, h) && t in s.threads && s.threads[t].stat != Ready && s.threads[t].prio == h
    ensures var s' := Insert(s, t);
            Running(s', h) && h < |s'.queues| && s'.queues[h] == s.queues[h] + [t]
                && forall u :: Left(s', u) == Left(s, u)
  {
    hide MapOk, Flagged, Scan, Distinct;
    InvShape(s);
    InsertOk(s, t);
    InsertThreads(s, t);
    ScanSame(s.queues, Insert(s, t).queues, 0);
  }

  /** A thread that becomes ready at the running priority runs with exactly the tick at which all who
      were ready there before it have used up their slices, whatever arrives after it. */
  lemma {:induction false} ArrivalTurn(s: Sched, h: nat, t: Id, ops: seq<Op>, s': Sched)
    requires Running(s, h) && t in s.threads && s.threads[t].stat != Ready && s.threads[t].prio == h
    requires s.threads[t].prio < |s.queues| <= 256 && |s.bytes| == 32
    requires Reaches(Insert(s, t), ops, s') && CalmRun(Insert(s, t), ops, h, t)
             && TickCount(ops) <= Wait(s, s.queues[h])
    ensures Running(s', h) && (s'.current == Some(t) <==> TickCount(ops) == Wait(s, s.queues[h]))
  {
    hide Inv, MapOk, Insert, Scan, Reaches, CalmRun;
    var (q, s1) := (s.queues[h], Insert(s, t));
    ArrivalRuns(s, h, t);
    assert s1.queues[h][..|q|] == q && s1.queues[h][|q|] == t;
    WaitSame(s, s1, q);
    NotQueued(s, h, t);
    RoundRobin(s1, ops, s', h, |q|);
  }

  // ---- laps ----

  /** The operation lets nobody enter or leave queue `h` or become ready above it. */
  ghost predicate Still(s: Sched, op: Op, h: nat) {
    Legal(s, op) && h < |s.queues| &&
    match op
    case DoSuspend(t) => t !in s.queues[h]
    case DoResume(t) => s.threads[t].stat == Suspended ==> h < s.threads[t].prio
    case DoStartup(t, p) => h < p
    case DoChange(t, p) => s.threads[t].stat == Ready ==> t !in s.queues[h] && h < p
    case DoClose(t) => t !in s.queues[h]
    case DoYield => false
    case DoTick => s.current.Some? && Left(s, s.current.value) <= 1 ==> s.lock == 0
    case _ => true
  }

  ghost predicate StillRun(s: Sched, ops: seq<Op>, h: nat)
    decreases |ops|
  {
    ops == [] || (Still(s, ops[0], h) && StillRun(Step(s, ops[0]), ops[1..], h))
  }

  lemma {:induction false} StillCalm(s: Sched, op: Op, h: nat)
    requires Running(s, h) && Still(s, op, h)
    ensures Calm(s, op, h, s.queues[h][|s.queues[h]| - 1])
  {
    hide Inv, Scan, Legal;
  }

  /** Queue `h` and all slices are as before. */
  ghost predicate SameQueue(s: Sched, s': Sched, h: nat) {
    && h < |s.queues| == |s'.queues| <= 256 && |s.bytes| == |s'.bytes| == 32 && s'.queues[h] == s.queues[h]
    && forall u :: Slice(s', u) == Slice(s, u)
  }

  lemma {:induction false} PutSame(s: Sched, t: Id, k: Thread, h: nat)
    requires t in s.threads && k.slice == s.threads[t].slice && h < |s.queues| <= 256 && |s.bytes| == 32
    ensures SameQueue(s, Put(s, t, k), h)
  {
  }

  lemma {:induction false} InsertSame(s: Sched, t: Id, h: nat)
    requires t in s.threads && h < |s.queues| <= 256 && |s.bytes| == 32 && h != s.threads[t].prio < |s.queues|
    ensures SameQueue(s, Insert(s, t), h)
  {
    hide SetBit;
  }

  lemma {:induction false} RemoveSame(s: Sched, t: Id, h: nat)
    requires t in s.threads && h < |s.queues| <= 256 && |s.bytes| == 32 && s.threads[t].prio < |s.queues|
    requires t !in s.queues[h]
    ensures SameQueue(s, Remove(s, t), h)
  {
    hide ClearBit, Del;
    DelAbsent(s.queues[h], t);
  }

  lemma {:induction false} QueueTrans(s: Sched, s1: Sched, s': Sched, h: nat)
    requires SameQueue(s, s1, h) && SameQueue(s1, s', h)
    ensures SameQueue(s, s', h)
  {
    hide Slice;
  }

  lemma {:induction false} OffSame(s: Sched, t: Id, k: Thread, h: nat)
    requires t in s.threads && k.slice == s.threads[t].slice && k.prio == s.threads[t].prio < |s.queues|
    requires h < |s.queues| <= 256 && |s.bytes| == 32 && t !in s.queues[h]
    ensures SameQueue(s, Remove(Put(s, t, k), t), h)
  {
    hide Remove, Slice;
    PutSame(s, t, k, h);
    RemoveSame(Put(s, t, k), t, h);
    QueueTrans(s, Put(s, t, k), Remove(Put(s, t, k), t), h);
  }

  lemma {:induction false} ChangeSame(s: Sched, t: Id, p: nat, h: nat)
    requires t in s.threads && s.threads[t].prio < |s.queues| <= 256 && |s.bytes| == 32 && p < |s.queues|
    requires h < |s.queues| && (s.threads[t].stat == Ready ==> t !in s.queues[h] && h != p)
    ensures SameQueue(s, ChangePriority(s, t, p), h)
  {
    hide Insert, Slice;
    var k := s.threads[t];
    PutSame(s, t, k.(prio := p), h);
    if k.stat == Ready {
      RemoveSame(s, t, h);
      var s1 := Remove(s, t);
      assert s1.threads == s.threads;
      PutSame(s1, t, k.(prio := p), h);
      InsertSame(Put(s1, t, k.(prio := p)), t, h);
      QueueTrans(s, s1, Put(s1, t, k.(prio := p)), h);
      QueueTrans(s, Put(s1, t, k.(prio := p)), ChangePriority(s, t, p), h);
    }
  }

  lemma {:induction false} StillKeeps(s: Sched, op: Op, h: nat)
    requires Running(s, h) && Still(s, op, h) && !op.DoTick?
    ensures var s' := Step(s, op);
            Running(s', h) && s'.queues[h] == s.queues[h]
                && forall u :: Left(s', u) == Left(s, u) && Slice(s', u) == Slice(s, u)
  {
    hide Inv, Insert, Remove, Yield, Tick, Schedule, ChangePriority, MapOk, Slice, Left, Scan, Calm, Top, Distinct;
    InvShape(s);
    StillCalm(s, op, h);
    CalmKeeps(s, op, h, |s.queues[h]| - 1);
    assert SameQueue(s, s, h);
    match op
    case DoSuspend(t) => if s.threads[t].stat == Ready { OffSame(s, t, s.threads[t].(stat := Suspended), h); }
    case DoResume(t) => if s.threads[t].stat == Suspended { InsertSame(s, t, h); }
    case DoStartup(t, p) =>
      var s1 := Put(s, t, s.threads[t].(prio := p, stat := Suspended));
      PutSame(s, t, s.threads[t].(prio := p, stat := Suspended), h);
      InsertSame(s1, t, h);
      QueueTrans(s, s1, Step(s, op), h);
    case DoChange(t, p) => ChangeSame(s, t, p, h);
    case DoClose(t) =>
      PutSame(s, t, s.threads[t].(stat := Closed), h);
      if s.threads[t].stat == Ready { OffSame(s, t, s.threads[t].(stat := Closed), h); }
    case DoSchedule => ScheduleSame(s, h);
    case DoLock => LockSame(s, h, s.lock + 1);
    case DoUnlock =>
      LockSame(s, h, Unlocked(s));
      ScheduleSame(s.(lock := Unlocked(s)), h);
  }

  lemma {:induction false} LockSame(s: Sched, h: nat, n: nat)
    requires Running(s, h)
    ensures Running(s.(lock := n), h) && MapOk(s.(lock := n)) && SameQueue(s, s.(lock := n), h)
  {
    hide Inv, MapOk;
    LockOk(s, n);
    InvShape(s.(lock := n));
  }

  ghost predicate Full(s: Sched, ts: seq<Id>) { forall t | t in ts :: Left(s, t) == Slice(s, t) }

  lemma {:induction false} NothingLeft(s: Sched, h: nat, a: seq<Id>, b: seq<Id>)
    requires Running(s, h) && s.queues[h] == a + b
    ensures (Wait(s, a) == 0 <==> a == []) && (a != [] ==> Left(s, a[0]) >= 1)
  {
    hide Inv, Scan;
    RunningIs(s, h);
    TopThread(s, h);
    if a != [] { assert s.queues[h][0] == a[0]; }
  }

  /** The threads of `a` run down their slices while those of `b` behind them have full ones. */
  lemma {:induction false} LapFrom(s: Sched, ops: seq<Op>, s': Sched, h: nat, a: seq<Id>, b: seq<Id>)
    requires Running(s, h) && s.queues[h] == a + b && Full(s, b)
    requires Reaches(s, ops, s') && StillRun(s, ops, h) && TickCount(ops) == Wait(s, a)
    ensures Running(s', h) && s'.queues[h] == b + a && Full(s', b + a) && forall u :: Slice(s', u) == Slice(s, u)
    decreases |ops|
  {
    hide Inv, MapOk, Scan, Step, Legal, Left, Slice, Wait, Full, Running, Still;
    RunningIs(s, h);
    NothingLeft(s, h, a, b);
    if ops == [] {
      assert a + b == b && b + a == b;
    } else {
      var s1 := Step(s, ops[0]);
      if ops[0].DoTick? {
        LapTick(s, h, a, b);
        if Left(s, a[0]) == 1 {
          LapFrom(s1, ops[1..], s', h, a[1..], b + [a[0]]);
          assert (b + [a[0]]) + a[1..] == b + a;
        } else {
          LapFrom(s1, ops[1..], s', h, a, b);
        }
      } else {
        StillKeeps(s, ops[0], h);
        WaitSame(s, s1, a);
        FullSame(s, s1, b);
        LapFrom(s1, ops[1..], s', h, a, b);
      }
    }
  }

  lemma {:induction false} FullSame(s: Sched, s': Sched, ts: seq<Id>)
    requires Full(s, ts) && forall u :: Left(s', u) == Left(s, u) && Slice(s', u) == Slice(s, u)
    ensures Full(s', ts)
  {
    hide Left, Slice;
  }

  /** One tick of a lap. */
  lemma {:induction false} LapTick(s: Sched, h: nat, a: seq<Id>, b: seq<Id>)
    requires Running(s, h) && s.queues[h] == a + b && Full(s, b) && Still(s, DoTick, h) && a != []
    ensures var (s', turns) := (Step(s, DoTick), Left(s, a[0]) == 1);
            && Running(s', h) && (forall u :: Slice(s', u) == Slice(s, u))
            && s'.queues[h] == (if turns then a[1..] + (b + [a[0]]) else a + b)
            && Full(s', if turns then b + [a[0]] else b)
            && Wait(s', if turns then a[1..] else a) == Wait(s, a) - 1
  {
    hide Inv, MapOk, Scan, Step, Legal, Left, Slice, Wait, Full;
    RunningIs(s, h);
    StepTick(s);
    TopThread(s, h);
    NothingLeft(s, h, a, b);
    var (t, s1) := (a[0], Tick(s));
    assert s.queues[h][0] == t && a == [t] + a[1..];
    if Left(s, t) == 1 {
      TickTurns(s, h);
      FullTurn(s, s1, a, b);
      assert s.queues[h][1..] + [t] == a[1..] + (b + [t]);
    } else {
      TickStays(s, h);
      FullTick(s, s1, a, b);
    }
  }

  lemma {:induction false} FullTurn(s: Sched, s': Sched, a: seq<Id>, b: seq<Id>)
    requires a != [] && a[0] !in (a + b)[1..] && Full(s, b) && Left(s, a[0]) == 1 && Left(s', a[0]) == Slice(s, a[0])
    requires (forall u | u != a[0] :: Left(s', u) == Left(s, u)) && forall u :: Slice(s', u) == Slice(s, u)
    ensures Full(s', b + [a[0]]) && Wait(s', a[1..]) == Wait(s, a) - 1
  {
    hide Left, Slice;
    assert (a + b)[1..] == a[1..] + b;
    WaitSame(s, s', a[1..]);
  }

  lemma {:induction false} FullTick(s: Sched, s': Sched, a: seq<Id>, b: seq<Id>)
    requires a != [] && a[0] !in (a + b)[1..] && Full(s, b) && Left(s', a[0]) == Left(s, a[0]) - 1
    requires (forall u | u != a[0] :: Left(s', u) == Left(s, u)) && forall u :: Slice(s', u) == Slice(s, u)
    ensures Full(s', b) && Wait(s', a) == Wait(s, a) - 1
  {
    hide Left, Slice;
    assert (a + b)[1..] == a[1..] + b;
    WaitSame(s, s', a[1..]);
  }

  /** A whole lap: after exactly the ticks left to all threads of the running queue it stands as before,
      and each of its threads has a full slice. */
  lemma {:induction false} Lap(s: Sched, ops: seq<Op>, s': Sched, h: nat)
    requires Running(s, h) && Reaches(s, ops, s') && StillRun(s, ops, h) && TickCount(ops) == Wait(s, s.queues[h])
    ensures Running(s', h) && s'.queues[h] == s.queues[h] && Full(s', s.queues[h])
    ensures forall u :: Slice(s', u) == Slice(s, u)
  {
    hide Inv, Scan, Reaches, StillRun;
    RunningIs(s, h);
    var q := s.queues[h];
    assert q + [] == q && [] + q == q;
    LapFrom(s, ops, s', h, q, []);
  }

  function Slices(s: Sched, ts: seq<Id>): nat {
    if ts == [] then 0 else Slice(s, ts[0]) + Slices(s, ts[1..])
  }

  /** The position whose slice the tick `x` of a lap belongs to. */
  function TurnAt(s: Sched, ts: seq<Id>, x: nat): nat {
    if ts == [] || x < Slice(s, ts[0]) then 0 else 1 + TurnAt(s, ts[1..], x - Slice(s, ts[0]))
  }

  lemma {:induction false} TurnIs(s: Sched, ts: seq<Id>, i: nat, r: nat)
    requires i < |ts| && r < Slice(s, ts[i])
    ensures TurnAt(s, ts, Slices(s, ts[..i]) + r) == i && Slices(s, ts[..i]) + r < Slices(s, ts)
    ensures Slices(s, ts[..i + 1]) == Slices(s, ts[..i]) + Slice(s, ts[i])
    decreases i
  {
    hide Slice;
    if i == 0 {
      assert ts[..0] == [] && ts[..1] == [ts[0]] && [ts[0]][1..] == [];
    } else {
      assert ts[..i][1..] == ts[1..][..i - 1] && ts[..i + 1][1..] == ts[1..][..i];
      TurnIs(s, ts[1..], i - 1, r);
    }
  }

  lemma {:induction false} SlicesSame(s: Sched, s': Sched, ts: seq<Id>)
    requires forall u :: Slice(s', u) == Slice(s, u)
    ensures Slices(s', ts) == Slices(s, ts) && forall x: nat :: TurnAt(s', ts, x) == TurnAt(s, ts, x)
    decreases |ts|
  {
    hide Slice;
    if ts != [] {
      SlicesSame(s, s', ts[1..]);
      forall x: nat ensures TurnAt(s', ts, x) == TurnAt(s, ts, x) { }
    }
  }

  /** The queue is `q` turned by `i`, and its head has run `r` ticks of its slice. */
  ghost predicate Phase(s: Sched, h: nat, q: seq<Id>, i: nat, r: nat) {
    && Running(s, h) && i < |q| && s.queues[h] == q[i..] + q[..i] && r < Slice(s, q[i])
    && Left(s, q[i]) == Slice(s, q[i]) - r && Full(s, q[i + 1..] + q[..i])
  }

  lemma {:induction false} PhaseHead(s: Sched, h: nat, q: seq<Id>, i: nat, r: nat)
    requires Phase(s, h, q, i, r)
    ensures var (t, rest) := (q[i], q[i + 1..] + q[..i]);
            h < |s.queues| && s.queues[h] == [t] + rest && s.queues[h][0] == t && s.queues[h][1..] == rest && t !in rest
  {
    hide Inv, Scan, Left, Slice;
    RunningIs(s, h);
    TopThread(s, h);
    assert q[i..] + q[..i] == [q[i]] + (q[i + 1..] + q[..i]);
  }

  /** The queue turned by one more. */
  lemma {:induction false} PhaseNext(s: Sched, h: nat, q: seq<Id>, i: nat)
    requires Running(s, h) && i < |q| && s.queues[h] == q[i + 1..] + q[..i] + [q[i]] && Full(s, s.queues[h])
    ensures Phase(s, h, q, if i + 1 == |q| then 0 else i + 1, 0)
  {
    hide Inv, Scan, Left, Slice;
    RunningIs(s, h);
    HaveSlices(s, h);
    var j := if i + 1 == |q| then 0 else i + 1;
    var all := q[j + 1..] + q[..j];
    assert q[i + 1..] + q[..i] + [q[i]] == q[j..] + q[..j] == [q[j]] + all;
    assert q[j] in s.queues[h];
    forall u | u in all ensures Left(s, u) == Slice(s, u) { assert u in s.queues[h]; }
  }

  lemma {:induction false} PhaseTick(s: Sched, h: nat, q: seq<Id>, i: nat, r: nat)
    requires Phase(s, h, q, i, r) && (Left(s, q[i]) <= 1 ==> s.lock == 0)
    ensures var s' := Tick(s);
            && (forall u :: Slice(s', u) == Slice(s, u))
            && if r + 1 < Slice(s, q[i]) then Phase(s', h, q, i, r + 1)
               else Phase(s', h, q, if i + 1 == |q| then 0 else i + 1, 0)
  {
    hide Inv, Tick, Scan, Left, Slice;
    PhaseHead(s, h, q, i, r);
    TopThread(s, h);
    var (s', t, rest) := (Tick(s), q[i], q[i + 1..] + q[..i]);
    if Left(s, t) > 1 {
      TickStays(s, h);
    } else {
      TickTurns(s, h);
      forall u | u in rest + [t] ensures Left(s', u) == Slice(s', u) { }
      PhaseNext(s', h, q, i);
    }
  }

  lemma {:induction false} HaveSlices(s: Sched, h: nat)
    requires Running(s, h)
    ensures forall t | t in s.queues[h] :: Slice(s, t) >= 1
    ensures s.queues[h][0] in s.queues[h]
  {
    hide MapOk, Flagged, Distinct;
  }

  lemma {:induction false} Around(x: nat, n: nat, w: nat)
    requires x < w
    ensures (x + (n + 1)) % w == ((if x + 1 == w then 0 else x + 1) + n) % w
  {
    if x + 1 == w { OnceMore(n, w); }
  }

  lemma {:induction false} OnceMore(n: nat, w: nat)
    requires w > 0
    ensures (w + n) % w == n % w
  {
    var (q, r) := (n / w, n % w);
    assert n == w * q + r;
    assert w + n == w * (q + 1) + r;
    Divided(w + n, w, q + 1, r);
  }

  /** In `s'` the thread runs to whom tick `x` belongs. */
  ghost predicate Shows(s: Sched, s': Sched, h: nat, q: seq<Id>, x: nat) {
    var w := Slices(s, q);
    w > 0 && TurnAt(s, q, x % w) < |q| && Running(s', h) && s'.current == Some(q[TurnAt(s, q, x % w)])
  }

  lemma {:induction false} ShowsToo(s: Sched, s1: Sched, s': Sched, h: nat, q: seq<Id>, x: nat, y: nat)
    requires (forall u :: Slice(s1, u) == Slice(s, u)) && Shows(s1, s', h, q, y)
    requires Slices(s, q) > 0 ==> x % Slices(s, q) == y % Slices(s, q)
    ensures Shows(s, s', h, q, x)
  {
    hide Running, Slices, TurnAt, Slice;
    SlicesSame(s, s1, q);
  }

  lemma {:induction false} ShowsNow(s: Sched, h: nat, q: seq<Id>, i: nat, r: nat)
    requires Phase(s, h, q, i, r)
    ensures Shows(s, s, h, q, Slices(s, q[..i]) + r)
  {
    hide Inv, Scan, Slices, TurnAt, Left, Slice;
    TurnIs(s, q, i, r);
    PhaseHead(s, h, q, i, r);
    Small(Slices(s, q[..i]) + r, Slices(s, q));
  }

  lemma {:induction false} CycleFrom(s: Sched, ops: seq<Op>, s': Sched, h: nat, q: seq<Id>, i: nat, r: nat)
    requires Phase(s, h, q, i, r) && Reaches(s, ops, s') && StillRun(s, ops, h)
    ensures Shows(s, s', h, q, Slices(s, q[..i]) + r + TickCount(ops))
    decreases |ops|
  {
    hide Inv, Scan, Step, Legal, Left, Slice, Slices, TurnAt, Shows, Full;
    PhaseHead(s, h, q, i, r);
    if ops == [] {
      ShowsNow(s, h, q, i, r);
    } else {
      var (s1, n, x) := (Step(s, ops[0]), TickCount(ops[1..]), Slices(s, q[..i]) + r);
      if ops[0].DoTick? {
        RunningIs(s, h);
        StepTick(s);
        PhaseTick(s, h, q, i, r);
        if r + 1 < Slice(s, q[i]) {
          CycleFrom(s1, ops[1..], s', h, q, i, r + 1);
          SlicesSame(s, s1, q[..i]);
          ShowsToo(s, s1, s', h, q, x + (n + 1), x + 1 + n);
        } else {
          var j := if i + 1 == |q| then 0 else i + 1;
          CycleFrom(s1, ops[1..], s', h, q, j, 0);
          CycleNext(s, s1, h, q, i, r, n);
          ShowsToo(s, s1, s', h, q, x + (n + 1), Slices(s1, q[..j]) + 0 + n);
        }
      } else {
        StillKeeps(s, ops[0], h);
        PhaseSame(s, s1, h, q, i, r);
        CycleFrom(s1, ops[1..], s', h, q, i, r);
        SlicesSame(s, s1, q[..i]);
        ShowsToo(s, s1, s', h, q, x + n, x + n);
      }
    }
  }

  lemma {:induction false} CycleNext(s: Sched, s': Sched, h: nat, q: seq<Id>, i: nat, r: nat, n: nat)
    requires Phase(s, h, q, i, r) && r + 1 == Slice(s, q[i]) && forall u :: Slice(s', u) == Slice(s, u)
    ensures var (x, j, w) := (Slices(s, q[..i]) + r, if i + 1 == |q| then 0 else i + 1, Slices(s, q));
            w > 0 && (x + (n + 1)) % w == (Slices(s', q[..j]) + 0 + n) % w
  {
    hide Inv, Scan, Left, Slice, Slices, TurnAt, Full;
    PhaseHead(s, h, q, i, r);
    HaveSlices(s, h);
    if i + 1 < |q| { assert q[i + 1] == (q[i + 1..] + q[..i])[0] == s.queues[h][1..][0]; }
    NextPlace(s, s', q, i, r);
    TurnIs(s, q, i, r);
    Around(Slices(s, q[..i]) + r, n, Slices(s, q));
  }

  lemma {:induction false} Small(x: nat, w: nat)
    requires x < w
    ensures x % w == x
  {
  }

  lemma {:induction false} PhaseSame(s: Sched, s': Sched, h: nat, q: seq<Id>, i: nat, r: nat)
    requires Phase(s, h, q, i, r) && Running(s', h) && s'.queues[h] == s.queues[h]
    requires forall u :: Left(s', u) == Left(s, u) && Slice(s', u) == Slice(s, u)
    ensures Phase(s', h, q, i, r)
  {
    hide Running, Left, Slice;
  }

  /** Where the next slice begins. */
  lemma {:induction false} NextPlace(s: Sched, s': Sched, q: seq<Id>, i: nat, r: nat)
    requires i < |q| && r + 1 == Slice(s, q[i]) && forall u :: Slice(s', u) == Slice(s, u)
    requires i + 1 < |q| ==> Slice(s, q[i + 1]) >= 1
    ensures var (x, j) := (Slices(s, q[..i]) + r, if i + 1 == |q| then 0 else i + 1);
            Slices(s', q[..j]) == if x + 1 == Slices(s, q) then 0 else x + 1
  {
    hide Slice;
    TurnIs(s, q, i, r);
    SlicesSame(s, s', q[..i + 1]);
    if i + 1 == |q| {
      assert q[..i + 1] == q;
    } else {
      TurnIs(s, q, i + 1, 0);
    }
  }

  /** From full slices on, the turns repeat for ever: `n` ticks later the thread runs whose slice the tick
      n, counted from the start of its lap of all slices, belongs to. */
  lemma {:induction false} Cycle(s: Sched, ops: seq<Op>, s': Sched, h: nat)
    requires Running(s, h) && Full(s, s.queues[h]) && Reaches(s, ops, s') && StillRun(s, ops, h)
    ensures var (q, w) := (s.queues[h], Slices(s, s.queues[h]));
            && w > 0 && TurnAt(s, q, TickCount(ops) % w) < |q|
            && Running(s', h) && s'.current == Some(q[TurnAt(s, q, TickCount(ops) % w)])
  {
    hide Inv, Scan, Reaches, StillRun, Left, Slice;
    RunningIs(s, h);
    var q := s.queues[h];
    HaveSlices(s, h);
    assert q[0..] == q && q[..0] == [] && q + [] == q;
    assert q[0] in q;
    forall u | u in q[1..] + q[..0] ensures Left(s, u) == Slice(s, u) { assert u in q; }
    assert Phase(s, h, q, 0, 0);
    CycleFrom(s, ops, s', h, q, 0, 0);
    assert Slices(s, q[..0]) == 0;
  }

  /** The last rt_exit_critical lets the head of the highest queue run. */
  lemma {:induction false} UnlockPicks(s: Sched, p: nat)
    requires Inv(s) && p < Levels(s) && s.queues[p] != []
    ensures var (s', h) := (Step(s, DoUnlock), Scan(s.queues, 0));
            && s'.lock == (if s.lock > 0 then s.lock - 1 else 0) && s'.queues == s.queues && s'.threads == s.threads
            && h < |s.queues| && s.queues[h] != []
            && s'.current == if s.lock <= 1 then Some(s.queues[h][0]) else s.current
  {
    hide Inv, MapOk, Scan;
    InvShape(s);
    ScheduleOk(s, p);
    LockOk(s, 0);
    ScheduleOk(s.(lock := 0), p);
  }

  lemma {:induction false} NotQueued(s: Sched, h: nat, t: Id)
    requires Inv(s) && h < Levels(s) && t in s.threads && s.threads[t].stat != Ready
    ensures t !in s.queues[h]
  {
    hide MapOk, Flagged, Distinct;
  }

  /** rt_system_scheduler_init. */
  function Init(wide: bool, threads: map<Id, Thread>): Sched {
    Sched(wide, seq(if wide then 256 else 32, _ => []), 0, seq(32, _ => 0), threads, None, 0)
  }

  lemma {:induction false} InitOk(wide: bool, threads: map<Id, Thread>)
    requires forall t | t in threads ::
               threads[t].stat == Start && threads[t].prio < (if wide then 256 else 32) && 1 <= threads[t].remaining
                   && 1 <= threads[t].slice
    ensures Inv(Init(wide, threads))
  {
    forall i: nat ensures !Bit(0, i) { ZeroBit(i); }
  }

  // ---- in place ----

  class Kernel {
    const wide: bool
    var queues: seq<seq<Id>>
    var group: nat
    var bytes: seq<nat>
    var threads: map<Id, Thread>
    var current: Option<Id>
    var lock: nat

    ghost function View(): Sched
      reads this
    {
      Sched(wide, queues, group, bytes, threads, current, lock)
    }

    ghost predicate Shaped(t: Id)
      reads this
    {
      t in threads && threads[t].prio < |queues| <= 256 && |bytes| == 32
    }

    constructor (wide: bool, threads: map<Id, Thread>)
      requires forall t | t in threads ::
                 threads[t].stat == Start && threads[t].prio < (if wide then 256 else 32) && 1 <= threads[t].remaining
                     && 1 <= threads[t].slice
      ensures View() == Init(wide, threads) && Inv(View())
    {
      this.wide, this.threads, group, current, lock := wide, threads, 0, None, 0;
      queues := seq(if wide then 256 else 32, _ => []);
      bytes := seq(32, _ => 0);
      InitOk(wide, threads);
    }

    method ScheduleInsertThread(t: Id)
      requires Shaped(t)
      modifies this
      ensures View() == Insert(old(View()), t)
    {
      var k := threads[t].(stat := Ready);
      threads := threads[t := k];
      queues := queues[k.prio := queues[k.prio] + [t]];
      if wide {
        bytes := bytes[k.prio / 8 := SetBit(bytes[k.prio / 8], k.prio % 8)];
        group := SetBit(group, k.prio / 8);
      } else {
        group := SetBit(group, k.prio);
      }
    }

    method ScheduleRemoveThread(t: Id)
      requires Shaped(t)
      modifies this
      ensures View() == Remove(old(View()), t)
    {
      var p := threads[t].prio;
      queues := queues[p := Del(queues[p], t)];
      if queues[p] == [] {
        if wide {
          bytes := bytes[p / 8 := ClearBit(bytes[p / 8], p % 8)];
          if bytes[p / 8] == 0 { group := ClearBit(group, p / 8); }
        } else {
          group := ClearBit(group, p);
        }
      }
    }

    method ThreadSuspend(t: Id) returns (ok: bool)
      requires Shaped(t)
      modifies this
      ensures (View(), ok) == Suspend(old(View()), t)
    {
      hide Remove;
      if threads[t].stat != Ready { return false; }
      threads := threads[t := threads[t].(stat := Suspended)];
      ScheduleRemoveThread(t);
      return true;
    }

    method ThreadResume(t: Id) returns (ok: bool)
      requires Shaped(t)
      modifies this
      ensures (View(), ok) == Resume(old(View()), t)
    {
      hide Insert;
      if threads[t].stat != Suspended { return false; }
      ScheduleInsertThread(t);
      return true;
    }

    method ThreadChangePriority(t: Id, p: nat)
      requires Shaped(t) && p < |queues|
      modifies this
      ensures View() == ChangePriority(old(View()), t, p)
    {
      hide Insert;
      if threads[t].stat == Ready {
        ScheduleRemoveThread(t);
        threads := threads[t := threads[t].(prio := p)];
        ScheduleInsertThread(t);
      } else {
        threads := threads[t := threads[t].(prio := p)];
      }
    }

    /** rt_schedule: some thread, the idle thread at least, is always ready. */
    method DoSchedule()
      requires Inv(View()) && exists p: nat :: p < Levels(View()) && queues[p] != []
      modifies this
      ensures View() == Schedule(old(View()))
      ensures lock == 0 ==> var h := Scan(queues, 0); h < |queues| && queues[h] != [] && current == Some(queues[h][0])
    {
      hide Ffs, Flagged, Scan, Distinct;
      ghost var p: nat :| p < Levels(View()) && queues[p] != [];
      ScheduleOk(View(), p);
      HighestIs(View(), p);
      if lock == 0 {
        var highest;
        if wide {
          var number := Ffs(group) - 1;
          WideNumber(View(), p);
          highest := number * 8 + Ffs(bytes[number]) - 1;
        } else {
          highest := Ffs(group) - 1;
        }
        var to := queues[highest][0];
        if current != Some(to) { current := Some(to); }
      }
    }

    method ThreadYield()
      requires Inv(View()) && current.Some? && current.value in threads
      modifies this
      ensures View() == Yield(old(View()))
    {
      hide Flagged, Distinct, Schedule, Del, Scan;
      var t := current.value;
      var p := threads[t].prio;
      if threads[t].stat == Ready && |queues[p]| > 1 {
        YieldRotates(View());
        queues := queues[p := Del(queues[p], t) + [t]];
        assert queues[p] != [];
        DoSchedule();
      }
    }

    /** The time slice of rt_tick_increase. */
    method TickIncrease()
      requires Inv(View()) && current.Some? && current.value in threads
      modifies this
      ensures View() == Tick(old(View()))
    {
      hide MapOk, Flagged, Distinct, Yield;
      var t := current.value;
      var k := threads[t];
      k := k.(remaining := k.remaining - 1);
      if k.remaining == 0 {
        k := k.(remaining := k.slice);
        SetThread(View(), t, k);
        threads := threads[t := k];
        ThreadYield();
      } else {
        threads := threads[t := k];
      }
    }
  }

  lemma {:induction false} WideNumber(s: Sched, p: nat)
    requires Inv(s) && s.wide && p < 256 && s.queues[p] != []
    ensures 0 <= Ffs(s.group) - 1 < 32
  {
    hide Ffs, Low, Pow2, Distinct;
    Widths();
    FfsIs(s.group);
    assert Flagged(s, p);
    if s.bytes[p / 8] == 0 { ZeroBit(p % 8); }
    if s.group == 0 { ZeroBit(p / 8); }
    LowBelow(s.group, 32);
  }

  lemma {:induction false} YieldRotates(s: Sched)
    requires Inv(s) && s.current.Some? && s.current.value in s.threads
    requires var k := s.threads[s.current.value]; k.stat == Ready && |s.queues[k.prio]| > 1
    ensures var (t, p) := (s.current.value, s.threads[s.current.value].prio);
            Inv(s.(queues := s.queues[p := Del(s.queues[p], t) + [t]]))
  {
    hide Bit, Flagged, Highest, Distinct, MapOk, Del;
    MapShape(s);
    var (t, k) := (s.current.value, s.threads[s.current.value]);
    var s1 := s.(queues := s.queues[k.prio := Del(s.queues[k.prio], t) + [t]]);
    Rotated(s.queues[k.prio], t);
    FlagsSame(s, s1);
    MapSame(s, s1);
  }
}
