/** Event sets of src/ipc.c: event bits, and threads that wait for all or for any of some of them. */
module Event {
  import opened Seqs
  import opened SortedList
  import opened IpcList

  // A 32-bit event word is the set of the numbers of its bits, so that `&`, `|` and `& ~` are
  // intersection, union and difference.

  type Bits = set<nat>

  /** What a thread waits for: RT_EVENT_FLAG_AND (all bits) or else RT_EVENT_FLAG_OR (any), and whether
      the bits are cleared when it gets them.  When it is woken, `bits` is what it received. */
  datatype Want = Want(bits: Bits, all: bool, clear: bool)

  datatype Sys = Sys(events: Bits, waiters: seq<Id>, wants: map<Id, Want>, flag: Flag, prio: map<Id, int>)

  datatype Result = Sent | Received(bits: Bits) | TimedOut | Failed | Blocked

  predicate Satisfied(events: Bits, w: Want) {
    if w.all then w.bits * events == w.bits else w.bits * events != {}
  }

  /** rt_event_recv finding its events set: the bits it gets, and the set it leaves. */
  function Take(events: Bits, w: Want): (Bits, Bits) {
    (events * w.bits, if w.clear then events - w.bits else events)
  }

  /** rt_event_send waking a thread: the bits saved in the thread, and the set it leaves. */
  function Deliver(events: Bits, w: Want): (Bits, Bits) {
    var got := if w.all then w.bits else w.bits * events;
    (got, if w.clear then events - got else events)
  }

  /** A receiver gets and clears the same bits whether it finds them set or is woken by the send. */
  lemma {:induction false} BothPaths(events: Bits, w: Want)
    requires Satisfied(events, w)
    ensures Deliver(events, w) == Take(events, w)
  {
    assert events - w.bits == events - (w.bits * events);
    assert w.bits * events == events * w.bits;
  }

  /** Fewer events satisfy fewer threads. */
  lemma {:induction false} Fewer(events: Bits, left: Bits, w: Want)
    requires !Satisfied(events, w) && left <= events
    ensures !Satisfied(left, w)
  {
    if w.all {
      var x :| x in w.bits && x !in events;
      assert x !in w.bits * left;
    } else {
      assert w.bits * left <= w.bits * events;
    }
  }

  function WantOf(wants: map<Id, Want>, t: Id): Want { if t in wants then wants[t] else Want({}, true, false) }

  /** The loop of rt_event_send over the waiting list: what is left of the events, of the list, and what
      the woken threads got. */
  function Sweep(events: Bits, list: seq<Id>, wants: map<Id, Want>): (Bits, seq<Id>, map<Id, Want>) {
    if list == [] then (events, [], wants)
    else
      var (t, w) := (list[0], WantOf(wants, list[0]));
      if Satisfied(events, w) then
        var (got, left) := Deliver(events, w);
        Sweep(left, list[1..], wants[t := w.(bits := got)])
      else
        var (e, kept, ws) := Sweep(events, list[1..], wants);
        (e, [t] + kept, ws)
  }

  function Send(s: Sys, bits: Bits): (Sys, Result) {
    if bits == {} then (s, Failed)
    else
      var (e, kept, ws) := Sweep(s.events + bits, s.waiters, s.wants);
      (s.(events := e, waiters := kept, wants := ws), Sent)
  }

  function Recv(s: Sys, t: Id, w: Want, wait: bool): (Sys, Result) {
    if w.bits == {} then (s, Failed)
    else if Satisfied(s.events, w) then
      var (got, left) := Take(s.events, w);
      (s.(events := left), Received(got))
    else if !wait then (s, TimedOut)
    else (s.(wants := s.wants[t := w], waiters := Queued(s.waiters, t, s.prio, s.flag)), Blocked)
  }

  function Expire(s: Sys, t: Id): Sys { s.(waiters := Del(s.waiters, t)) }

  function Reset(s: Sys): Sys { s.(waiters := [], events := {}) }

  // ---- nobody waits for what is there ----

  ghost predicate Inv(s: Sys) {
    Distinct(s.waiters) && forall t | t in s.waiters :: !Satisfied(s.events, WantOf(s.wants, t))
  }

  /** A woken thread gets, out of the events, all it wanted or some of it. */
  ghost predicate Served(events: Bits, w: Want, got: Want) {
    && got == w.(bits := got.bits) && got.bits <= events && got.bits <= w.bits
    && (w.all ==> got.bits == w.bits) && (!w.all ==> got.bits != {})
  }

  ghost predicate Cleared(got: Want, x: nat) { got.clear && x in got.bits }

  lemma {:induction false} DeliverServes(events: Bits, w: Want)
    requires Satisfied(events, w)
    ensures var (got, left) := Deliver(events, w);
            && Served(events, w, w.(bits := got)) && left <= events
            && forall x | x in events && x !in left :: Cleared(w.(bits := got), x)
  {
    assert w.bits * events <= events && w.bits * events <= w.bits;
  }

  /** The sweep wakes with what there is, clears only what a woken thread got and wanted cleared, keeps the
      order of those it leaves, and leaves only threads that the remaining events do not satisfy; it does
      not touch what they want. */
  lemma {:induction false} SweepOk(events: Bits, list: seq<Id>, wants: map<Id, Want>)
    requires Distinct(list)
    ensures var (e, kept, ws) := Sweep(events, list, wants);
            && e <= events && Sub(kept, list)
            && (forall t | t !in list || t in kept :: WantOf(ws, t) == WantOf(wants, t))
            && (forall t | t in kept :: !Satisfied(e, WantOf(wants, t)))
            && (forall t | t in list && t !in kept :: Served(events, WantOf(wants, t), WantOf(ws, t)))
            && (forall x | x in events && x !in e :: exists t :: t in list && t !in kept && Cleared(WantOf(ws, t), x))
    decreases |list|
  {
    hide Satisfied;
    if list == [] {
    } else {
      var (t, w, rest) := (list[0], WantOf(wants, list[0]), list[1..]);
      var (e, kept, ws) := Sweep(events, list, wants);
      assert list == [t] + rest && t !in rest;
      if Satisfied(events, w) {
        var (got, left) := Deliver(events, w);
        var wants1 := wants[t := w.(bits := got)];
        DeliverServes(events, w);
        SweepOk(left, rest, wants1);
        SubTail(kept, list);
        forall u | u in kept ensures u in rest { SubMember(kept, rest, u); }
        assert WantOf(ws, t) == WantOf(wants1, t) == w.(bits := got);
        forall u | u in rest && u !in kept ensures Served(events, WantOf(wants, u), WantOf(ws, u)) {
          assert Served(left, WantOf(wants1, u), WantOf(ws, u));
        }
        forall x | x in events && x !in e ensures exists u :: u in list && u !in kept && Cleared(WantOf(ws, u), x) {
          if x !in left { assert Cleared(WantOf(ws, t), x); }
        }
      } else {
        SweepOk(events, rest, wants);
        var k1 := kept[1..];
        assert kept == [t] + k1;
        Fewer(events, e, w);
      }
    }
  }

  /** After a send no thread is left waiting for events that are set; those woken got what they waited
      for, the others wait on in the same order, and an event is gone only if a woken thread cleared it. */
  lemma {:induction false} SendOk(s: Sys, bits: Bits)
    requires Inv(s)
    ensures var (s', r) := Send(s, bits);
            && Inv(s') && (r == Failed <==> bits == {}) && (bits == {} ==> s' == s) && Sub(s'.waiters, s.waiters)
            && (forall t | t in s'.waiters :: WantOf(s'.wants, t) == WantOf(s.wants, t))
            && (forall t | t in s.waiters && t !in s'.waiters ::
                  Served(s.events + bits, WantOf(s.wants, t), WantOf(s'.wants, t)))
            && s'.events <= s.events + bits
            && (forall x | x in s.events + bits && x !in s'.events ::
                  exists t :: t in s.waiters && t !in s'.waiters && Cleared(WantOf(s'.wants, t), x))
  {
    hide Satisfied, Sweep, Served, Cleared;
    SubSelf(s.waiters);
    if bits == {} {
      assert s.events + bits == s.events;
    } else {
      SweepOk(s.events + bits, s.waiters, s.wants);
      var (e, kept, ws) := Sweep(s.events + bits, s.waiters, s.wants);
      assert Sorted(s.waiters, map[]);
      SubKeeps(kept, s.waiters, map[]);
    }
  }

  /** A receiver gets what it wants out of the events exactly when they satisfy it, and clears that and
      no more; else it waits with what it wants, or nothing has changed. */
  lemma {:induction false} RecvOk(s: Sys, t: Id, w: Want, wait: bool)
    requires Inv(s) && t !in s.waiters
    ensures var (s', r) := Recv(s, t, w, wait);
            && Inv(s') && (r.Received? <==> w.bits != {} && Satisfied(s.events, w)) && (r == Failed <==> w.bits == {})
            && (r.Received? ==>
                && Served(s.events, w, w.(bits := r.bits)) && s'.waiters == s.waiters
                && s'.events == if w.clear then s.events - r.bits else s.events)
            && (r == Blocked ==>
                && WantOf(s'.wants, t) == w && s'.events == s.events
                && forall u :: u in s'.waiters <==> u in s.waiters || u == t)
            && (r == TimedOut || r == Failed ==> s' == s)
  {
    hide Satisfied, Distinct, Ins, Served;
    var s' := Recv(s, t, w, wait).0;
    if w.bits == {} {
    } else if Satisfied(s.events, w) {
      BothPaths(s.events, w);
      DeliverServes(s.events, w);
      assert s.events - w.bits == s.events - (s.events * w.bits);
      forall u | u in s.waiters ensures !Satisfied(s'.events, WantOf(s.wants, u)) {
        Fewer(s.events, s'.events, WantOf(s.wants, u));
      }
    } else if wait {
      QueuedOk(s.waiters, t, s.prio, s.flag);
    }
  }

  /** A receiver that has to wait is remembered with what it wants, behind everyone, or in a list in order of
      priority behind all of its or a higher one and before all of a lower one. */
  lemma {:induction false} RecvPlace(s: Sys, t: Id, w: Want) returns (p: nat)
    requires w.bits != {} && !Satisfied(s.events, w) && (s.flag == Prio ==> Sorted(s.waiters, s.prio))
    ensures var (s', r) := Recv(s, t, w, true);
            && r == Blocked && s'.wants == s.wants[t := w] && s'.events == s.events
            && p <= |s.waiters| && s'.waiters == s.waiters[..p] + [t] + s.waiters[p..]
            && (s.flag == Fifo ==> p == |s.waiters|)
            && (s.flag == Prio ==> forall j | 0 <= j < |s.waiters| ::
                  j < p <==> Key(s.prio, s.waiters[j]) <= Key(s.prio, t))
  {
    hide Satisfied, Queued, Sorted;
    p := QueuedPlace(s.waiters, t, s.prio, s.flag);
  }

  /** A timeout takes one thread off the list and leaves the events, the others and their order. */
  lemma {:induction false} ExpireResult(s: Sys, t: Id)
    ensures var s' := Expire(s, t);
            && s'.events == s.events && s'.wants == s.wants && Sub(s'.waiters, s.waiters)
            && forall u :: u in s'.waiters <==> u in s.waiters && u != t
  {
    hide Del, Sub;
    DelMember(s.waiters, t);
    DelIsSub(s.waiters, t);
  }

  /** A reset leaves no event and nobody waiting. */
  lemma {:induction false} ResetResult(s: Sys)
    requires Inv(s)
    ensures Reset(s).events == {} && Reset(s).waiters == [] && Inv(Reset(s)) && Reset(s).wants == s.wants
  {
  }

  // ---- whole runs ----

  datatype Op = DoSend(bits: Bits) | DoRecv(t: Id, w: Want, wait: bool) | DoExpire(t: Id) | DoReset

  ghost predicate Legal(s: Sys, op: Op) { op.DoRecv? ==> op.t !in s.waiters }

  function Step(s: Sys, op: Op): Sys {
    match op
    case DoSend(bits) => Send(s, bits).0
    case DoRecv(t, w, wait) => Recv(s, t, w, wait).0
    case DoExpire(t) => Expire(s, t)
    case DoReset => Reset(s)
  }

  lemma {:induction false} StepOk(s: Sys, op: Op)
    requires Inv(s) && Legal(s, op)
    ensures Inv(Step(s, op))
  {
    hide Satisfied, Send, Recv, Del, Sub, Sorted;
    match op
    case DoSend(bits) => SendOk(s, bits);
    case DoRecv(t, w, wait) => RecvOk(s, t, w, wait);
    case DoExpire(t) =>
      DelMember(s.waiters, t);
      DelIsSub(s.waiters, t);
      SubDistinct(Del(s.waiters, t), s.waiters);
    case DoReset =>
  }

  ghost predicate Reaches(s: Sys, ops: seq<Op>, s': Sys)
    decreases |ops|
  {
    if ops == [] then s' == s else Legal(s, ops[0]) && Reaches(Step(s, ops[0]), ops[1..], s')
  }

  /** Between any two operations no suspended thread's condition is satisfied by the event set. */
  lemma {:induction false} RunOk(s: Sys, ops: seq<Op>, s': Sys)
    requires Inv(s) && Reaches(s, ops, s')
    ensures Inv(s')
    decreases |ops|
  {
    hide Inv, Legal, Step;
    if ops != [] {
      StepOk(s, ops[0]);
      RunOk(Step(s, ops[0]), ops[1..], s');
    }
  }

  /** The state rt_event_init sets up. */
  function Init(flag: Flag, prio: map<Id, int>): Sys { Sys({}, [], map[], flag, prio) }

  lemma {:induction false} InitOk(flag: Flag, prio: map<Id, int>)
    ensures Inv(Init(flag, prio))
  {
  }

  // ---- in place ----

  class EventObject {
    var events: Bits
    var waiters: seq<Id>
    var wants: map<Id, Want>
    const flag: Flag

    /** rt_event_init. */
    constructor (flag: Flag)
      ensures forall prio :: View(prio) == Init(flag, prio) && Inv(View(prio))
    {
      hide Inv;
      events, waiters, wants := {}, [], map[];
      this.flag := flag;
      forall prio ensures Inv(Init(flag, prio)) { InitOk(flag, prio); }
    }

    ghost function View(prio: map<Id, int>): Sys
      reads this
    {
      Sys(events, waiters, wants, flag, prio)
    }

    /** rt_event_send. */
    method EventSend(bits: Bits, prio: map<Id, int>) returns (r: Result)
      requires Inv(View(prio))
      modifies this
      ensures (View(prio), r) == Send(old(View(prio)), bits) && Inv(View(prio))
    {
      hide Satisfied, Inv;
      assert Inv(Send(View(prio), bits).0) by { SendOk(View(prio), bits); }
      if bits == {} { return Failed; }
      events := events + bits;
      var list, kept: seq<Id> := waiters, [];
      ghost var all := Sweep(events, waiters, wants);
      assert [] + all.1 == all.1;
      while list != []
        invariant Onto(kept, Sweep(events, list, wants)) == all
        invariant waiters == old(waiters)
        decreases |list|
      {
        var thread := list[0];
        var w := WantOf(wants, thread);
        if Satisfied(events, w) {
          var got := if w.all then w.bits else w.bits * events;
          wants := wants[thread := w.(bits := got)];
          if w.clear { events := events - got; }
        } else {
          ghost var rest := Sweep(events, list[1..], wants);
          assert kept + ([thread] + rest.1) == kept + [thread] + rest.1;
          kept := kept + [thread];
        }
        list := list[1..];
      }
      assert kept + [] == kept;
      waiters := kept;
      return Sent;
    }

    /** rt_event_recv, up to the point where it returns or is suspended. */
    method EventRecv(thread: Id, w: Want, wait: bool, prio: map<Id, int>) returns (r: Result)
      requires Inv(View(prio)) && thread !in waiters
      modifies this
      ensures (View(prio), r) == Recv(old(View(prio)), thread, w, wait) && Inv(View(prio))
    {
      hide Satisfied, Inv, Queued;
      assert Inv(Recv(View(prio), thread, w, wait).0) by { RecvOk(View(prio), thread, w, wait); }
      if w.bits == {} { return Failed; }
      if Satisfied(events, w) {
        var got := events * w.bits;
        if w.clear { events := events - w.bits; }
        return Received(got);
      }
      if !wait { return TimedOut; }
      wants := wants[thread := w];
      waiters := Suspend(waiters, thread, prio, flag);
      return Blocked;
    }
  }

  function Onto(kept: seq<Id>, x: (Bits, seq<Id>, map<Id, Want>)): (Bits, seq<Id>, map<Id, Want>) {
    (x.0, kept + x.1, x.2)
  }
}
