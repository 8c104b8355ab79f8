/** Waiting in rt_mq_recv: a message queue, the receivers suspended on it, and those woken that have not run
    yet. */
module MessageQueueWait {
  import opened Seqs
  import opened SortedList
  import I = IpcList
  import M = MessageQueue

  // A step is one region with interrupts disabled; rt_mq_control is taken apart into smaller steps.

  datatype Sys = Sys(q: M.Queue, p: M.Parts, receivers: seq<Id>, woken: set<Id>, flag: I.Flag, prio: map<Id, int>)

  /** `Work` is a region of a thread that holds or gets a node, `Link` the one that queues it, `Take`,
      `Wait` and `Leave` are turns of receiver `t`, `Clear` and `Drop` are parts of a reset. */
  datatype Op = Work(op: M.Op) | Link(op: M.Op) | Take(t: Id) | Wait(t: Id) | Leave(t: Id) | Expire(t: Id) | Clear
                | Drop

  ghost predicate Legal(s: Sys, op: Op) {
    match op
    case Work(o) => (o.DoAcquire? || o.DoFill? || o.DoReturn?) && M.Legal(s.q, s.p, o)
    case Link(o) => (o.DoAppend? || o.DoPrepend?) && M.Legal(s.q, s.p, o)
    case Take(t) => t !in s.receivers && s.q.entry > 0
    case Wait(t) => t !in s.receivers && s.q.entry == 0
    case Leave(t) => t !in s.receivers && s.q.entry == 0
    case Expire(t) => t in s.receivers
    case Clear => true
    case Drop => s.q.entry > 0
  }

  /** The step on the queue itself. */
  function NodeOp(op: Op): M.Op
    requires op.Work? || op.Link? || op.Take? || op.Drop?
  {
    match op
    case Work(o) => o
    case Link(o) => o
    case Take(_) => M.DoUnlink
    case Drop => M.DoDiscard
  }

  predicate OnQueue(op: Op) { op.Work? || op.Link? || op.Take? || op.Drop? }

  function Wake(s: Sys): Sys {
    if s.receivers == [] then s else s.(receivers := s.receivers[1..], woken := s.woken + {s.receivers[0]})
  }

  ghost function Moved(s: Sys, op: Op): Sys
    requires M.Ok(s.q, s.p) && OnQueue(op) && Legal(s, op)
  {
    var (q, p) := M.Step(s.q, s.p, NodeOp(op)); s.(q := q, p := p)
  }

  ghost function Step(s: Sys, op: Op): Sys {
    if !(M.Ok(s.q, s.p) && Legal(s, op)) then s
    else
    match op
    case Work(_) => Moved(s, op)
    case Link(_) => Wake(Moved(s, op))
    case Take(t) => Moved(s, op).(woken := s.woken - {t})
    case Wait(t) => s.(woken := s.woken - {t}, receivers := I.Queued(s.receivers, t, s.prio, s.flag))
    case Leave(t) => s.(woken := s.woken - {t})
    case Expire(t) => s.(receivers := Del(s.receivers, t))
    case Clear => s.(receivers := [])
    case Drop => Moved(s, op)
  }

  // ---- no lost wakeup ----

  /** A suspended receiver means that the messages are all meant for receivers already woken. */
  ghost predicate NoLoss(s: Sys) {
    && Distinct(s.receivers) && (forall t | t in s.receivers :: t !in s.woken)
    && (s.receivers != [] ==> s.q.entry <= |s.woken|)
  }

  ghost predicate Inv(s: Sys) { M.Ok(s.q, s.p) && NoLoss(s) }

  ghost function Messages(s: Sys): seq<M.Msg> { M.Messages(s.q, s.p) }

  /** How the count moves. */
  lemma {:induction false} MovedOk(s: Sys, op: Op)
    requires M.Ok(s.q, s.p) && OnQueue(op) && Legal(s, op)
    ensures var s' := Moved(s, op);
            && M.Ok(s'.q, s'.p) && M.Effect(s.q, NodeOp(op), Messages(s), Messages(s'))
            && s'.q.entry == s.q.entry + (if op.Link? then 1 else if op.Take? || op.Drop? then -1 else 0)
  {
    hide M.Ok, M.Step, M.Messages;
    M.StepOk(s.q, s.p, NodeOp(op));
    M.MessagesLength(s.q, s.p);
    M.MessagesLength(Moved(s, op).q, Moved(s, op).p);
  }

  lemma {:induction false} WakeOk(s: Sys)
    requires Distinct(s.receivers) && forall t | t in s.receivers :: t !in s.woken
    requires s.receivers != [] ==> s.q.entry <= |s.woken| + 1
    ensures NoLoss(Wake(s))
  {
    if s.receivers != [] {
      var (t, rest) := (s.receivers[0], s.receivers[1..]);
      assert s.receivers == [t] + rest && t in s.receivers && t !in rest;
    }
  }

  lemma {:induction false} ExpireOk(s: Sys, t: Id)
    requires NoLoss(s)
    ensures NoLoss(s.(receivers := Del(s.receivers, t)))
  {
    hide Del, Sub, Distinct;
    DelMember(s.receivers, t);
    DelIsSub(s.receivers, t);
    SubDistinct(Del(s.receivers, t), s.receivers);
    SubLength(Del(s.receivers, t), s.receivers);
  }

  lemma {:induction false} StepOk(s: Sys, op: Op)
    requires Inv(s) && Legal(s, op)
    ensures Inv(Step(s, op))
  {
    hide M.Ok, M.Legal, Moved, Distinct, Wake, Del, I.Queued;
    if OnQueue(op) { MovedOk(s, op); MovedSame(s, op); }
    match op
    case Work(_) =>
    case Link(_) => WakeOk(Moved(s, op)); WakeQueue(Moved(s, op));
    case Take(t) => assert |s.woken - {t}| >= |s.woken| - 1;
    case Wait(t) => I.QueuedOk(s.receivers, t, s.prio, s.flag);
    case Leave(t) =>
    case Expire(t) => ExpireOk(s, t);
    case Clear => NoneDistinct();
    case Drop =>
  }

  lemma {:induction false} NoneDistinct()
    ensures Distinct<Id>([])
  {
  }

  lemma {:induction false} MovedSame(s: Sys, op: Op)
    requires M.Ok(s.q, s.p) && OnQueue(op) && Legal(s, op)
    ensures var s' := Moved(s, op); s'.receivers == s.receivers && s'.woken == s.woken
  {
  }

  lemma {:induction false} WakeQueue(s: Sys)
    ensures Wake(s).q == s.q && Wake(s).p == s.p
  {
  }

  // ---- whole runs ----

  ghost predicate Reaches(s: Sys, ops: seq<Op>, s': Sys)
    decreases |ops|
  {
    if ops == [] then s' == s else Legal(s, ops[0]) && Reaches(Step(s, ops[0]), ops[1..], s')
  }

  /** Over every interleaving the nodes stay partitioned and no wakeup is lost: once all woken receivers
      have run, a suspended receiver means an empty queue. */
  lemma {:induction false} RunOk(s: Sys, ops: seq<Op>, s': Sys)
    requires Inv(s) && Reaches(s, ops, s')
    ensures Inv(s') && (s'.woken == {} && s'.receivers != [] ==> Messages(s') == [])
    decreases |ops|
  {
    hide M.Ok, Legal, Step, M.Messages, Distinct;
    if ops == [] {
      M.MessagesLength(s.q, s.p);
    } else {
      StepOk(s, ops[0]);
      RunOk(Step(s, ops[0]), ops[1..], s');
    }
  }

  /** What a step does to the receivers: linking a message wakes the first and no other, a receiver that
      waits is put where its priority or the time says, and a timeout takes one thread off. */
  lemma {:induction false} StepReceivers(s: Sys, op: Op)
    requires Inv(s) && Legal(s, op)
    ensures var (s', r) := (Step(s, op), s.receivers);
            && s'.flag == s.flag && s'.prio == s.prio
            && (op.Link? ==> s'.receivers == (if r == [] then r else r[1..])
                             && forall u :: u in s'.woken <==> u in s.woken || (r != [] && u == r[0]))
            && (op.Wait? ==> s'.receivers == I.Queued(r, op.t, s.prio, s.flag))
            && (op.Expire? ==> forall u :: u in s'.receivers <==> u in r && u != op.t)
            && (op.Clear? ==> s'.receivers == [])
            && (op.Work? || op.Take? || op.Leave? || op.Drop? ==> s'.receivers == r)
            && (op.Take? || op.Wait? || op.Leave? ==> s'.woken == s.woken - {op.t})
            && (op.Work? || op.Expire? || op.Clear? || op.Drop? ==> s'.woken == s.woken)
  {
    hide M.Ok, M.Step, M.Legal, I.Queued, Del, Distinct, NoLoss;
    if op.Expire? { DelMember(s.receivers, op.t); }
  }

  /** What a step does to the messages of the queue. */
  datatype Act = Last(msg: M.Msg) | First(msg: M.Msg) | Pop

  function Play(ms: seq<M.Msg>, acts: seq<Act>): seq<M.Msg>
    decreases |acts|
  {
    if acts == [] then ms
    else Play(match acts[0]
              case Last(m) => ms + [m]
              case First(m) => [m] + ms
              case Pop => if ms == [] then [] else ms[1..], acts[1..])
  }

  ghost function ActsOf(s: Sys, op: Op): seq<Act> {
    match op
    case Link(DoAppend(n)) => if 0 <= n < |s.q.data| then [Last(s.q.data[n])] else []
    case Link(DoPrepend(n)) => if 0 <= n < |s.q.data| then [First(s.q.data[n])] else []
    case Take(_) => [Pop]
    case Drop => [Pop]
    case _ => []
  }

  ghost function Acts(s: Sys, ops: seq<Op>): seq<Act>
    decreases |ops|
  {
    if ops == [] || !Inv(s) || !Legal(s, ops[0]) then [] else ActsOf(s, ops[0]) + Acts(Step(s, ops[0]), ops[1..])
  }

  lemma {:induction false} StepActs(s: Sys, op: Op)
    requires Inv(s) && Legal(s, op)
    ensures |ActsOf(s, op)| <= 1 && Messages(Step(s, op)) == Play(Messages(s), ActsOf(s, op))
    ensures op.Take? ==> 0 <= s.q.head < |s.q.data| && Messages(s) != [] && Messages(s)[0] == s.q.data[s.q.head]
  {
    hide M.Ok, M.Legal, Moved, Distinct, M.Messages, NoLoss;
    if OnQueue(op) {
      MovedOk(s, op);
      if op.Link? { WakeQueue(Moved(s, op)); }
    }
    assert ActsOf(s, op) != [] ==> ActsOf(s, op)[1..] == [];
  }

  lemma {:induction false} PlayJoin(ms: seq<M.Msg>, a: seq<Act>, b: seq<Act>)
    requires |a| <= 1
    ensures Play(ms, a + b) == Play(Play(ms, a), b)
  {
    if a == [] { assert a + b == b; } else { assert (a + b)[1..] == b && a[1..] == []; }
  }

  /** Over every interleaving the queue is a sequence: linked messages are appended or put in front, and a
      receiver takes the first (`StepActs`). */
  lemma {:induction false} RunRefines(s: Sys, ops: seq<Op>, s': Sys)
    requires Inv(s) && Reaches(s, ops, s')
    ensures Messages(s') == Play(Messages(s), Acts(s, ops))
    decreases |ops|
  {
    hide M.Ok, NoLoss, Legal, Step, Messages, Play, ActsOf;
    if ops == [] {
      PlayNone(Messages(s));
    } else {
      StepOk(s, ops[0]);
      StepActs(s, ops[0]);
      RunRefines(Step(s, ops[0]), ops[1..], s');
      PlayJoin(Messages(s), ActsOf(s, ops[0]), Acts(Step(s, ops[0]), ops[1..]));
    }
  }

  lemma {:induction false} PlayNone(ms: seq<M.Msg>)
    ensures Play(ms, []) == ms
  {
  }

  // ---- in place ----

  class Receivers {
    const queue: M.MessageQueueObject
    const flag: I.Flag
    var list: seq<Id>
    ghost var woken: set<Id>

    ghost function View(prio: map<Id, int>): Sys
      reads this, queue, queue.next, queue.data
    {
      Sys(queue.View(), queue.parts, list, woken, flag, prio)
    }

    constructor (max: nat, flag: I.Flag)
      ensures fresh(queue) && fresh(queue.next) && fresh(queue.data)
      ensures forall prio :: Inv(View(prio)) && Messages(View(prio)) == []
    {
      queue := new M.MessageQueueObject(max);
      this.flag, list, woken := flag, [], {};
    }

    /** The link region of a send or an urgent send ends by waking the first receiver. */
    method Signal(prio: map<Id, int>)
      requires M.Ok(View(prio).q, View(prio).p) && Distinct(list) && forall t | t in list :: t !in woken
      requires list != [] ==> queue.entry <= |woken| + 1
      modifies this
      ensures View(prio) == Wake(old(View(prio))) && Inv(View(prio))
    {
      WakeOk(View(prio));
      if list != [] {
        woken := woken + {list[0]};
        list := list[1..];
      }
    }

    method Send(msg: M.Msg, urgent: bool, prio: map<Id, int>) returns (full: bool)
      requires Inv(View(prio)) && queue.next != queue.data as object
      modifies this, queue, queue.next, queue.data
      ensures Inv(View(prio)) && full == (old(queue.parts.free) == []) && queue.parts.flight == old(queue.parts.flight)
      ensures Messages(View(prio)) ==
              (if urgent && !full then [msg] else []) + old(Messages(View(prio))) + if full || urgent then [] else [msg]
    {
      hide M.Messages, Distinct, M.Links, M.Partition;
      ghost var before := View(prio);
      M.MessagesLength(before.q, before.p);
      if urgent { full := queue.Urgent(msg); } else { full := queue.Send(msg); }
      M.MessagesLength(queue.View(), queue.parts);
      if !full { Signal(prio); }
    }

    /** One turn of rt_mq_recv by `thread`: the first message; or nothing, and it waits or leaves. */
    method RecvOnce(thread: Id, block: bool, prio: map<Id, int>) returns (got: bool, msg: M.Msg)
      requires Inv(View(prio)) && queue.next != queue.data as object && thread !in list
      modifies this, queue, queue.next
      ensures Inv(View(prio)) && got == (old(Messages(View(prio))) != [])
      ensures old(Messages(View(prio))) == (if got then [msg] else []) + Messages(View(prio))
      ensures woken == old(woken) - {thread} && queue.parts.flight == old(queue.parts.flight)
      ensures list == if got || !block then old(list) else I.Queued(old(list), thread, prio, flag)
    {
      hide M.Messages, Distinct, I.Queued, M.Links, M.Partition;
      ghost var before := View(prio);
      M.MessagesLength(before.q, before.p);
      woken := woken - {thread};
      got, msg := queue.Recv();
      M.MessagesLength(queue.View(), queue.parts);
      if !got && block {
        I.QueuedOk(list, thread, prio, flag);
        list := I.Suspend(list, thread, prio, flag);
      }
      assert |before.woken - {thread}| >= |before.woken| - 1;
    }
  }
}
