/** Mailboxes of src/ipc.c: a ring buffer, threads suspended on it, and threads that were woken but have
    not run yet.  Each step is one region with interrupts disabled. */
module Mailbox {
  import opened Seqs
  import opened SortedList
  import opened IpcList

  type Word = nat

  datatype Box = Box(pool: seq<Word>, inOff: nat, outOff: nat, entry: nat, receivers: seq<Id>, senders: seq<Id>)

  /** `gotWoken` and `putWoken` are the receivers and senders woken but not run since. */
  datatype Sys = Sys(box: Box, gotWoken: set<Id>, putWoken: set<Id>, flag: Flag, prio: map<Id, int>)

  datatype Result = Sent | Got(value: Word) | Full | Empty | Blocked

  // ---- the ring ----

  function Next(b: Box, i: nat): nat { if i + 1 >= |b.pool| then 0 else i + 1 }

  function Slot(b: Box, i: nat): nat { if b.outOff + i < |b.pool| then b.outOff + i else b.outOff + i - |b.pool| }

  ghost predicate RingOk(b: Box) {
    b.inOff < |b.pool| && b.outOff < |b.pool| && b.entry <= |b.pool|
    && b.inOff == if b.entry == |b.pool| then b.outOff else Slot(b, b.entry)
  }

  /** The mails, oldest first. */
  function Mails(b: Box): (ms: seq<Word>)
    requires b.outOff < |b.pool| && b.entry <= |b.pool|
    ensures |ms| == b.entry
  {
    seq(b.entry, i requires 0 <= i < b.entry => b.pool[Slot(b, i)])
  }

  function Put(b: Box, v: Word): Box
    requires b.inOff < |b.pool|
  {
    b.(pool := b.pool[b.inOff := v], inOff := Next(b, b.inOff), entry := b.entry + 1)
  }

  function Drop(b: Box): Box
    requires b.entry > 0
  {
    b.(outOff := Next(b, b.outOff), entry := b.entry - 1)
  }

  /** A send appends to the mails. */
  lemma {:induction false} PutOk(b: Box, v: Word)
    requires RingOk(b) && b.entry < |b.pool|
    ensures RingOk(Put(b, v)) && Mails(Put(b, v)) == Mails(b) + [v]
  {
    var b' := Put(b, v);
    forall i | 0 <= i < b.entry ensures b'.pool[Slot(b', i)] == b.pool[Slot(b, i)] { }
  }

  /** A receive takes the oldest mail. */
  lemma {:induction false} DropOk(b: Box)
    requires RingOk(b) && b.entry > 0
    ensures RingOk(Drop(b)) && Mails(b) == [b.pool[b.outOff]] + Mails(Drop(b))
  {
    var b' := Drop(b);
    forall i | 0 <= i < b'.entry ensures Slot(b', i) == Slot(b, i + 1) { }
    assert Slot(b, 0) == b.outOff;
  }

  // ---- the regions of rt_mb_send_wait and rt_mb_recv ----

  function WakeReceiver(s: Sys): Sys {
    if s.box.receivers == [] then s
    else s.(box := s.box.(receivers := s.box.receivers[1..]), gotWoken := s.gotWoken + {s.box.receivers[0]})
  }

  function WakeSender(s: Sys): Sys {
    if s.box.senders == [] then s
    else s.(box := s.box.(senders := s.box.senders[1..]), putWoken := s.putWoken + {s.box.senders[0]})
  }

  /** A turn of a sender, new or woken: it finds room, or gives up, or is suspended. */
  function Send(s: Sys, t: Id, v: Word, block: bool): (Sys, Result)
    requires s.box.inOff < |s.box.pool|
  {
    var s1 := s.(putWoken := s.putWoken - {t});
    if s.box.entry == |s.box.pool| then
      if block then (s1.(box := s.box.(senders := Queued(s.box.senders, t, s.prio, s.flag))), Blocked) else (s1, Full)
    else (WakeReceiver(s1.(box := Put(s.box, v))), Sent)
  }

  function Recv(s: Sys, t: Id, block: bool): (Sys, Result)
    requires s.box.outOff < |s.box.pool|
  {
    var s1 := s.(gotWoken := s.gotWoken - {t});
    if s.box.entry == 0 then
      if block then (s1.(box := s.box.(receivers := Queued(s.box.receivers, t, s.prio, s.flag))), Blocked)
      else (s1, Empty)
    else (WakeSender(s1.(box := Drop(s.box))), Got(s.box.pool[s.box.outOff]))
  }

  /** A suspended thread's timer expires. */
  function Expire(s: Sys, t: Id): Sys {
    s.(box := s.box.(receivers := Del(s.box.receivers, t), senders := Del(s.box.senders, t)))
  }

  /** rt_mb_control: everyone is woken with an error, the ring is emptied. */
  function Reset(s: Sys): Sys {
    s.(box := s.box.(receivers := [], senders := [], entry := 0, inOff := 0, outOff := 0))
  }

  // ---- no lost wakeup ----

  /** Every thread is in one place. */
  ghost predicate Placed(s: Sys) {
    && Distinct(s.box.receivers) && Distinct(s.box.senders) && s.gotWoken !! s.putWoken
    && (forall t | t in s.box.receivers :: t !in s.box.senders && t !in s.gotWoken && t !in s.putWoken)
    && (forall t | t in s.box.senders :: t !in s.gotWoken && t !in s.putWoken)
  }

  /** A suspended receiver means that the mails are all meant for receivers already woken; a suspended
      sender, that the free slots are all meant for senders already woken. */
  ghost predicate NoLoss(s: Sys) {
    && (s.box.receivers != [] ==> s.box.entry <= |s.gotWoken|)
    && (s.box.senders != [] ==> |s.box.pool| - s.box.entry <= |s.putWoken|)
  }

  ghost predicate Inv(s: Sys) { RingOk(s.box) && Placed(s) && NoLoss(s) }

  /** Not suspended on this mailbox: `t` has just called in, or was woken. */
  ghost predicate Runs(s: Sys, t: Id) { t !in s.box.receivers && t !in s.box.senders }

  lemma {:induction false} HeadOf(list: seq<Id>)
    requires Distinct(list) && list != []
    ensures Distinct(list[1..]) && list[0] in list && list[0] !in list[1..]
            && forall u :: u in list <==> u == list[0] || u in list[1..]
  {
    assert list == [list[0]] + list[1..];
  }

  /** Waking the first of a list keeps the counts even: one more mail, one more receiver on its way. */
  lemma {:induction false} WakeReceiverOk(s: Sys)
    requires RingOk(s.box) && Placed(s)
    requires s.box.receivers != [] ==> s.box.entry <= |s.gotWoken| + 1
    requires s.box.senders != [] ==> |s.box.pool| - s.box.entry <= |s.putWoken|
    ensures Inv(WakeReceiver(s)) && Mails(WakeReceiver(s).box) == Mails(s.box)
  {
    hide Distinct;
    if s.box.receivers != [] { HeadOf(s.box.receivers); }
    assert Slot(WakeReceiver(s).box, 0) == Slot(s.box, 0);
  }

  lemma {:induction false} WakeSenderOk(s: Sys)
    requires RingOk(s.box) && Placed(s)
    requires s.box.receivers != [] ==> s.box.entry <= |s.gotWoken|
    requires s.box.senders != [] ==> |s.box.pool| - s.box.entry <= |s.putWoken| + 1
    ensures Inv(WakeSender(s)) && Mails(WakeSender(s).box) == Mails(s.box)
  {
    hide Distinct;
    if s.box.senders != [] { HeadOf(s.box.senders); }
    assert Slot(WakeSender(s).box, 0) == Slot(s.box, 0);
  }

  /** A send appends its mail, or leaves the mails alone; never more than the ring holds. */
  lemma {:induction false} SendOk(s: Sys, t: Id, v: Word, block: bool)
    requires Inv(s) && Runs(s, t) && t !in s.gotWoken
    ensures var (s', r) := Send(s, t, v, block);
            && Inv(s') && (r == Sent <==> s.box.entry < |s.box.pool|)
            && Mails(s'.box) == if r == Sent then Mails(s.box) + [v] else Mails(s.box)
  {
    hide Distinct, Queued;
    var s1 := s.(putWoken := s.putWoken - {t});
    assert |s1.putWoken| >= |s.putWoken| - 1;
    if s.box.entry == |s.box.pool| {
      QueuedOk(s.box.senders, t, s.prio, s.flag);
      assert forall b: Box | b.pool == s.box.pool && b.outOff == s.box.outOff && b.entry == s.box.entry ::
             Mails(b) == Mails(s.box);
    } else {
      PutOk(s.box, v);
      WakeReceiverOk(s1.(box := Put(s.box, v)));
    }
  }

  /** A receive takes the oldest mail, or leaves the mails alone. */
  lemma {:induction false} RecvOk(s: Sys, t: Id, block: bool)
    requires Inv(s) && Runs(s, t) && t !in s.putWoken
    ensures var (s', r) := Recv(s, t, block);
            && Inv(s') && (r.Got? <==> s.box.entry > 0)
            && Mails(s.box) == if r.Got? then [r.value] + Mails(s'.box) else Mails(s'.box)
  {
    hide Distinct, Queued;
    var s1 := s.(gotWoken := s.gotWoken - {t});
    assert |s1.gotWoken| >= |s.gotWoken| - 1;
    if s.box.entry == 0 {
      QueuedOk(s.box.receivers, t, s.prio, s.flag);
    } else {
      DropOk(s.box);
      WakeSenderOk(s1.(box := Drop(s.box)));
    }
  }

  /** What a turn of a sender comes to.  With room it wakes the first suspended receiver and no other; else
      it is suspended, where its priority or the time says, or gives up. */
  lemma {:induction false} SendTurn(s: Sys, t: Id, v: Word, block: bool)
    requires Inv(s)
    ensures var ((s', r), full) := (Send(s, t, v, block), s.box.entry == |s.box.pool|);
            && (r == Sent <==> !full) && (r == Blocked <==> full && block) && (r == Full <==> full && !block)
            && s'.putWoken == s.putWoken - {t} && s'.flag == s.flag && s'.prio == s.prio
            && s'.box.receivers == (if full || s.box.receivers == [] then s.box.receivers else s.box.receivers[1..])
            && (forall u :: u in s'.gotWoken <==>
                  u in s.gotWoken || (!full && s.box.receivers != [] && u == s.box.receivers[0]))
            && s'.box.senders == if r == Blocked then Queued(s.box.senders, t, s.prio, s.flag) else s.box.senders
  {
    hide Distinct, Queued, Slot;
  }

  lemma {:induction false} RecvTurn(s: Sys, t: Id, block: bool)
    requires Inv(s)
    ensures var ((s', r), empty) := (Recv(s, t, block), s.box.entry == 0);
            && (r.Got? <==> !empty) && (r == Blocked <==> empty && block) && (r == Empty <==> empty && !block)
            && s'.gotWoken == s.gotWoken - {t} && s'.flag == s.flag && s'.prio == s.prio
            && s'.box.senders == (if empty || s.box.senders == [] then s.box.senders else s.box.senders[1..])
            && (forall u :: u in s'.putWoken <==>
                  u in s.putWoken || (!empty && s.box.senders != [] && u == s.box.senders[0]))
            && s'.box.receivers == if r == Blocked then Queued(s.box.receivers, t, s.prio, s.flag) else s.box.receivers
  {
    hide Distinct, Queued, Slot;
  }

  /** A reset leaves nobody suspended and no mail, and whoever was woken is still on the way. */
  lemma {:induction false} ResetOk(s: Sys)
    requires Inv(s)
    ensures var s' := Reset(s);
            && Inv(s') && Mails(s'.box) == [] && s'.box.receivers == [] && s'.box.senders == []
            && s'.gotWoken == s.gotWoken && s'.putWoken == s.putWoken && |s'.box.pool| == |s.box.pool|
  {
    EmptyDistinct();
  }

  /** A timeout takes one thread off the list it is on, and nobody else. */
  lemma {:induction false} ExpireOk(s: Sys, t: Id)
    requires Inv(s)
    ensures Inv(Expire(s, t)) && Mails(Expire(s, t).box) == Mails(s.box)
    ensures var (b, b') := (s.box, Expire(s, t).box);
            && (forall u :: u in b'.receivers <==> u in b.receivers && u != t)
            && (forall u :: u in b'.senders <==> u in b.senders && u != t)
            && Expire(s, t).gotWoken == s.gotWoken && Expire(s, t).putWoken == s.putWoken
  {
    hide Del, Sub, Distinct, Sorted;
    var (a, b) := (s.box.receivers, s.box.senders);
    DelMember(a, t);
    DelMember(b, t);
    DelIsSub(a, t);
    DelIsSub(b, t);
    SubDistinct(Del(a, t), a);
    SubDistinct(Del(b, t), b);
    assert a == [] ==> Del(a, t) == [] by { SubLength(Del(a, t), a); }
    assert b == [] ==> Del(b, t) == [] by { SubLength(Del(b, t), b); }
    assert Slot(Expire(s, t).box, 0) == Slot(s.box, 0);
  }

  // ---- whole runs ----

  datatype Op = DoSend(t: Id, v: Word, block: bool) | DoRecv(t: Id, block: bool) | DoExpire(t: Id) | DoReset

  /** Who may take a step: a sender that is not suspended and not a woken receiver, and so on. */
  ghost predicate Legal(s: Sys, op: Op) {
    match op
    case DoSend(t, _, _) => Runs(s, t) && t !in s.gotWoken
    case DoRecv(t, _) => Runs(s, t) && t !in s.putWoken
    case DoExpire(_) => true
    case DoReset => true
  }

  function Step(s: Sys, op: Op): Sys {
    if !(s.box.inOff < |s.box.pool| && s.box.outOff < |s.box.pool|) then s
    else
    match op
    case DoSend(t, v, block) => Send(s, t, v, block).0
    case DoRecv(t, block) => Recv(s, t, block).0
    case DoExpire(t) => Expire(s, t)
    case DoReset => Reset(s)
  }

  lemma {:induction false} StepOk(s: Sys, op: Op)
    requires Inv(s) && Legal(s, op)
    ensures Inv(Step(s, op))
  {
    hide Distinct, Queued, Send, Recv, Expire;
    match op
    case DoSend(t, v, block) => SendOk(s, t, v, block);
    case DoRecv(t, block) => RecvOk(s, t, block);
    case DoExpire(t) => ExpireOk(s, t);
    case DoReset => EmptyDistinct();
  }

  lemma {:induction false} EmptyDistinct()
    ensures Distinct<Id>([])
  {
  }

  ghost predicate Reaches(s: Sys, ops: seq<Op>, s': Sys)
    decreases |ops|
  {
    if ops == [] then s' == s else Legal(s, ops[0]) && Reaches(Step(s, ops[0]), ops[1..], s')
  }

  /** Over every interleaving there is no lost wakeup.  In particular, once all woken threads have run, a
      suspended receiver means an empty mailbox and a suspended sender a full one. */
  lemma {:induction false} RunOk(s: Sys, ops: seq<Op>, s': Sys)
    requires Inv(s) && Reaches(s, ops, s')
    ensures Inv(s')
    ensures s'.gotWoken == {} && s'.box.receivers != [] ==> Mails(s'.box) == []
    ensures s'.putWoken == {} && s'.box.senders != [] ==> |Mails(s'.box)| == |s'.box.pool|
    decreases |ops|
  {
    hide RingOk, Placed, Legal, Step, Mails;
    RingBounds(s);
    if ops != [] {
      StepOk(s, ops[0]);
      RunOk(Step(s, ops[0]), ops[1..], s');
    }
  }

  // ---- who is woken ----

  /** Whether a send is made that finds room. */
  predicate Sends(s: Sys, op: Op) { op.DoSend? && s.box.entry < |s.box.pool| }

  ghost function SendCount(s: Sys, ops: seq<Op>): nat
    decreases |ops|
  {
    if ops == [] then 0 else (if Sends(s, ops[0]) then 1 else 0) + SendCount(Step(s, ops[0]), ops[1..])
  }

  /** The step lets those up to position `i` of the suspended receivers keep their place: no timeout of one
      of them, no reset, no more urgent newcomer in a PRIO mailbox. */
  ghost predicate Orderly(s: Sys, op: Op, i: nat) {
    && i < |s.box.receivers| && !op.DoReset? && (op.DoExpire? ==> op.t !in s.box.receivers[..i + 1])
    && (op.DoRecv? && s.flag == Prio ==>
        Sorted(s.box.receivers, s.prio) && Key(s.prio, s.box.receivers[i]) <= Key(s.prio, op.t))
  }

  ghost predicate OrderlyRun(s: Sys, ops: seq<Op>, i: nat)
    decreases |ops|
  {
    ops == [] || (Orderly(s, ops[0], i) && if !Sends(s, ops[0]) then OrderlyRun(Step(s, ops[0]), ops[1..], i)
                                           else i == 0 || OrderlyRun(Step(s, ops[0]), ops[1..], i - 1))
  }

  lemma {:induction false} PlaceKept(s: Sys, op: Op, i: nat)
    requires Inv(s) && Legal(s, op) && Orderly(s, op, i)
    ensures var (r, s') := (s.box.receivers, Step(s, op));
            if !Sends(s, op) then i < |s'.box.receivers| && s'.box.receivers[..i + 1] == r[..i + 1]
            else s'.box.receivers == r[1..] && r[0] in s'.gotWoken
  {
    hide Queued, Del, Distinct, Send, Recv, Slot, Sorted;
    RingBounds(s);
    match op
    case DoSend(t, v, block) => SendTurn(s, t, v, block);
    case DoRecv(t, block) =>
      RecvTurn(s, t, block);
      QueuedBehind(s.box.receivers, t, s.prio, s.flag, i);
    case DoExpire(t) => DelPrefix(s.box.receivers, t, i + 1);
  }

  /** Receivers are woken in the order in which they stand: over every such run the one at position `i` is
      suspended while the sends that found room are no more than `i`, one place further for each. */
  lemma {:induction false} ServedInTurn(s: Sys, ops: seq<Op>, s': Sys, i: nat)
    requires Inv(s) && i < |s.box.receivers| && Reaches(s, ops, s') && OrderlyRun(s, ops, i) && SendCount(s, ops) <= i
    ensures var k := SendCount(s, ops);
            i - k < |s'.box.receivers| && s'.box.receivers[..i - k + 1] == s.box.receivers[k..i + 1]
    decreases |ops|
  {
    hide Inv, Legal, Step, Orderly, Sends;
    if ops != [] {
      var (op, s1, r) := (ops[0], Step(s, ops[0]), s.box.receivers);
      OrderlyIs(s, op, i);
      PlaceKept(s, op, i);
      StepOk(s, op);
      if Sends(s, op) {
        ServedInTurn(s1, ops[1..], s', i - 1);
        var k := SendCount(s1, ops[1..]);
        assert s1.box.receivers[k..i] == r[k + 1..i + 1];
      } else {
        ServedInTurn(s1, ops[1..], s', i);
        var k := SendCount(s1, ops[1..]);
        assert s1.box.receivers[k..i + 1] == s1.box.receivers[..i + 1][k..] == r[..i + 1][k..] == r[k..i + 1];
      }
    } else {
      assert s.box.receivers[0..i + 1] == s.box.receivers[..i + 1];
    }
  }

  /** And the send that finds room after that wakes it. */
  lemma {:induction false} WokenByNext(s: Sys, ops: seq<Op>, s': Sys, i: nat, op: Op)
    requires Inv(s) && i < |s.box.receivers| && Reaches(s, ops, s') && OrderlyRun(s, ops, i) && SendCount(s, ops) == i
    requires Legal(s', op) && Sends(s', op)
    ensures var t := s.box.receivers[i]; t in Step(s', op).gotWoken && t !in Step(s', op).box.receivers
  {
    hide Inv, Legal, Step, Sends, OrderlyRun, Reaches, SendCount;
    ServedInTurn(s, ops, s', i);
    RunOk(s, ops, s');
    var t := s.box.receivers[i];
    assert s'.box.receivers[0] == s'.box.receivers[..1][0] == s.box.receivers[i..i + 1][0] == t;
    SendsOrderly(s', op);
    PlaceKept(s', op, 0);
    HeadGone(s');
  }

  lemma {:induction false} SendsOrderly(s: Sys, op: Op)
    requires Sends(s, op) && s.box.receivers != []
    ensures Orderly(s, op, 0)
  {
  }

  lemma {:induction false} HeadGone(s: Sys)
    requires Inv(s) && s.box.receivers != []
    ensures s.box.receivers[0] !in s.box.receivers[1..]
  {
    hide RingOk, NoLoss;
    HeadOf(s.box.receivers);
  }

  lemma {:induction false} OrderlyIs(s: Sys, op: Op, i: nat)
    requires Orderly(s, op, i)
    ensures i < |s.box.receivers|
  {
  }

  /** The mail a step puts in, and the one it takes out. */
  function Inflow(s: Sys, op: Op): seq<Word>
    requires s.box.inOff < |s.box.pool|
  {
    if op.DoSend? && Send(s, op.t, op.v, op.block).1 == Sent then [op.v] else []
  }

  function Outflow(s: Sys, op: Op): seq<Word>
    requires s.box.outOff < |s.box.pool|
  {
    if op.DoRecv? && Recv(s, op.t, op.block).1.Got? then [Recv(s, op.t, op.block).1.value] else []
  }

  /** All that a run puts in and takes out, in order. */
  ghost function Flows(s: Sys, ops: seq<Op>): (seq<Word>, seq<Word>)
    decreases |ops|
  {
    if ops == [] || !Inv(s) then ([], [])
    else
      var (i, o) := Flows(Step(s, ops[0]), ops[1..]);
      (Inflow(s, ops[0]) + i, Outflow(s, ops[0]) + o)
  }

  /** First in, first out: what has been received, then what is still there, is what was there, then what
      was sent.  Nothing is lost, doubled or reordered, whichever threads wait. */
  lemma {:induction false} RunFifo(s: Sys, ops: seq<Op>, s': Sys)
    requires Inv(s) && Reaches(s, ops, s') && forall i | 0 <= i < |ops| :: !ops[i].DoReset?
    ensures Inv(s') && Flows(s, ops).1 + Mails(s'.box) == Mails(s.box) + Flows(s, ops).0
    decreases |ops|
  {
    hide Inv, Legal, Step, Mails, Inflow, Outflow;
    RingBounds(s);
    if ops != [] {
      var (op, s1) := (ops[0], Step(s, ops[0]));
      StepOk(s, op);
      RingBounds(s1);
      StepFifo(s, op);
      RunFifo(s1, ops[1..], s');
      RingBounds(s');
      var (i, o) := Flows(s1, ops[1..]);
      FlowJoin(Inflow(s, op), Outflow(s, op), i, o, Mails(s.box), Mails(s1.box), Mails(s'.box));
    }
  }

  lemma {:induction false} FlowJoin(a: seq<Word>, b: seq<Word>, i: seq<Word>, o: seq<Word>, m: seq<Word>,
          m1: seq<Word>, m': seq<Word>)
    requires b + m1 == m + a && o + m' == m1 + i
    ensures b + o + m' == m + (a + i)
  {
    calc {
      b + o + m';
      b + (o + m');
      b + (m1 + i);
      b + m1 + i;
      m + a + i;
      m + (a + i);
    }
  }

  lemma {:induction false} StepFifo(s: Sys, op: Op)
    requires Inv(s) && Legal(s, op) && !op.DoReset?
    ensures Inv(Step(s, op)) && Outflow(s, op) + Mails(Step(s, op).box) == Mails(s.box) + Inflow(s, op)
  {
    hide Mails, Send, Recv, Expire, RingOk, NoLoss, Placed;
    RingBounds(s);
    match op
    case DoSend(t, v, block) => SendOk(s, t, v, block);
    case DoRecv(t, block) => RecvOk(s, t, block);
    case DoExpire(t) => ExpireOk(s, t);
  }

  lemma {:induction false} RingBounds(s: Sys)
    requires Inv(s)
    ensures s.box.inOff < |s.box.pool| && s.box.outOff < |s.box.pool| && s.box.entry <= |s.box.pool|
    ensures |Mails(s.box)| == s.box.entry && (s.box.entry == 0 ==> Mails(s.box) == [])
  {
  }

  // ---- in place ----

  class MailboxObject {
    const pool: array<Word>
    const flag: Flag
    var inOff: nat
    var outOff: nat
    var entry: nat
    var receivers: seq<Id>
    var senders: seq<Id>
    ghost var gotWoken: set<Id>
    ghost var putWoken: set<Id>

    ghost function View(prio: map<Id, int>): Sys
      reads this, pool
    {
      Sys(Box(pool[..], inOff, outOff, entry, receivers, senders), gotWoken, putWoken, flag, prio)
    }

    constructor (size: nat, flag: Flag)
      requires size > 0
      ensures fresh(pool) && forall prio :: Inv(View(prio)) && Mails(View(prio).box) == []
    {
      pool := new Word[size](_ => 0);
      this.flag, inOff, outOff, entry, receivers, senders := flag, 0, 0, 0, [], [];
      gotWoken, putWoken := {}, {};
    }

    /** One turn of rt_mb_send_wait by `thread`. */
    method SendOnce(thread: Id, value: Word, block: bool, prio: map<Id, int>) returns (r: Result)
      requires Inv(View(prio)) && Runs(View(prio), thread) && thread !in gotWoken
      modifies this, pool
      ensures (View(prio), r) == Send(old(View(prio)), thread, value, block) && Inv(View(prio))
    {
      hide Queued, Distinct, Placed, NoLoss, Mails, Slot;
      SendOk(View(prio), thread, value, block);
      putWoken := putWoken - {thread};
      if entry == pool.Length {
        if !block { return Full; }
        senders := Suspend(senders, thread, prio, flag);
        return Blocked;
      }
      pool[inOff] := value;
      inOff := inOff + 1;
      if inOff >= pool.Length { inOff := 0; }
      entry := entry + 1;
      if receivers != [] {
        gotWoken := gotWoken + {receivers[0]};
        receivers := receivers[1..];
      }
      return Sent;
    }

    /** One turn of rt_mb_recv by `thread`. */
    method RecvOnce(thread: Id, block: bool, prio: map<Id, int>) returns (r: Result)
      requires Inv(View(prio)) && Runs(View(prio), thread) && thread !in putWoken
      modifies this
      ensures (View(prio), r) == Recv(old(View(prio)), thread, block) && Inv(View(prio))
    {
      hide Queued, Distinct, Placed, NoLoss, Mails, Slot;
      RecvOk(View(prio), thread, block);
      gotWoken := gotWoken - {thread};
      if entry == 0 {
        if !block { return Empty; }
        receivers := Suspend(receivers, thread, prio, flag);
        return Blocked;
      }
      var value := pool[outOff];
      outOff := outOff + 1;
      if outOff >= pool.Length { outOff := 0; }
      entry := entry - 1;
      if senders != [] {
        putWoken := putWoken + {senders[0]};
        senders := senders[1..];
      }
      return Got(value);
    }

    /** rt_mb_control with RT_IPC_CMD_RESET. */
    method Control(prio: map<Id, int>)
      modifies this
      ensures View(prio) == Reset(old(View(prio)))
    {
      while receivers != []
        invariant View(prio) == old(View(prio)).(box := old(View(prio)).box.(receivers := receivers))
        decreases |receivers|
      {
        receivers := receivers[1..];
      }
      while senders != []
        invariant View(prio) == old(View(prio)).(box := old(View(prio)).box.(receivers := [], senders := senders))
        decreases |senders|
      {
        senders := senders[1..];
      }
      entry, inOff, outOff := 0, 0, 0;
    }
  }
}
