/** Message queues of src/ipc.c: nodes linked by `next` into a free list and a queue. */
module MessageQueue {
  import opened Seqs

  // Sending and receiving each take two regions with interrupts disabled, between which a node is in
  // flight: on neither list, held by the thread that is copying.

  const NULL := -1

  type Msg = seq<nat>

  /** `entry` counts the queue; nodes are numbered from 0. */
  datatype Queue = Queue(next: seq<int>, data: seq<Msg>, head: int, tail: int, free: int, entry: nat)

  /** Where the nodes are. */
  datatype Parts = Parts(queue: seq<int>, free: seq<int>, flight: set<int>)

  // ---- the regions ----

  /** First region of rt_mq_send and rt_mq_urgent: a node from the free list, or NULL. */
  function Acquire(q: Queue): (Queue, int)
    requires q.free == NULL || 0 <= q.free < |q.next|
  {
    if q.free == NULL then (q, NULL) else (q.(free := q.next[q.free]), q.free)
  }

  /** Filling a node in flight; rt_mq_send also clears its link. */
  function Fill(q: Queue, n: int, msg: Msg, clear: bool): Queue
    requires 0 <= n < |q.next| == |q.data|
  {
    q.(data := q.data[n := msg], next := if clear then q.next[n := NULL] else q.next)
  }

  /** Second region of rt_mq_send. */
  function Append(q: Queue, n: int): Queue
    requires q.tail == NULL || 0 <= q.tail < |q.next|
  {
    q.(next := if q.tail != NULL then q.next[q.tail := n] else q.next, tail := n,
       head := if q.head == NULL then n else q.head, entry := q.entry + 1)
  }

  /** Second region of rt_mq_urgent. */
  function Prepend(q: Queue, n: int): Queue
    requires 0 <= n < |q.next|
  {
    q.(next := q.next[n := q.head], head := n, tail := if q.tail == NULL then n else q.tail, entry := q.entry + 1)
  }

  /** First region of rt_mq_recv, when there is a message. */
  function Unlink(q: Queue): (Queue, int)
    requires 0 <= q.head < |q.next| && q.entry > 0
  {
    (q.(head := q.next[q.head], tail := if q.tail == q.head then NULL else q.tail, entry := q.entry - 1), q.head)
  }

  /** Second region of rt_mq_recv. */
  function Return(q: Queue, n: int): Queue
    requires 0 <= n < |q.next|
  {
    q.(next := q.next[n := q.free], free := n)
  }

  // ---- the invariant ----

  /** The links from `from` on pass through `xs` and end. */
  ghost predicate Links(next: seq<int>, from: int, xs: seq<int>)
    decreases |xs|
  {
    if xs == [] then from == NULL
    else from == xs[0] && 0 <= from < |next| && Links(next, next[from], xs[1..])
  }

  /** Every node is in exactly one place, and they are `max` in all. */
  ghost predicate Partition(p: Parts, max: nat) {
    && Distinct(p.queue) && Distinct(p.free)
    && (forall n | n in p.queue :: n !in p.free && n !in p.flight)
    && (forall n | n in p.free :: n !in p.flight)
    && (forall n :: 0 <= n < max <==> n in p.queue || n in p.free || n in p.flight)
    && |p.queue| + |p.free| + |p.flight| == max
  }

  ghost predicate Ok(q: Queue, p: Parts) {
    && |q.data| == |q.next| && Partition(p, |q.next|)
    && Links(q.next, q.head, p.queue) && Links(q.next, q.free, p.free)
    && q.tail == (if p.queue == [] then NULL else p.queue[|p.queue| - 1]) && q.entry == |p.queue|
  }

  /** The messages in the queue, first to be received first. */
  ghost function Messages(q: Queue, p: Parts): seq<Msg> {
    seq(|p.queue|, i requires 0 <= i < |p.queue| => if 0 <= p.queue[i] < |q.data| then q.data[p.queue[i]] else [])
  }

  lemma {:induction false} LinksFrame(next: seq<int>, from: int, xs: seq<int>, n: int, v: int)
    requires Links(next, from, xs) && 0 <= n < |next| && n !in xs
    ensures Links(next[n := v], from, xs)
    decreases |xs|
  {
    if xs != [] { LinksFrame(next, next[from], xs[1..], n, v); }
  }

  lemma {:induction false} LinksAppend(next: seq<int>, from: int, xs: seq<int>, n: int)
    requires Links(next, from, xs) && xs != [] && Distinct(xs) && n !in xs && 0 <= n < |next| && next[n] == NULL
    ensures var last := xs[|xs| - 1]; 0 <= last < |next| && Links(next[last := n], from, xs + [n])
    decreases |xs|
  {
    var rest := xs[1..];
    assert (xs + [n])[1..] == rest + [n];
    if rest == [] {
      assert Links(next[xs[0] := n], n, [n]);
    } else {
      assert xs[0] !in rest && rest[|rest| - 1] == xs[|xs| - 1] && xs[0] != xs[|xs| - 1];
      LinksAppend(next, next[from], rest, n);
    }
  }

  lemma {:induction false} HeadOf(xs: seq<int>)
    requires Distinct(xs) && xs != []
    ensures Distinct(xs[1..]) && xs[0] in xs && xs[0] !in xs[1..] && forall n :: n in xs <==> n == xs[0] || n in xs[1..]
  {
    assert xs == [xs[0]] + xs[1..];
  }

  lemma {:induction false} AcquireOk(q: Queue, p: Parts)
    requires Ok(q, p)
    ensures q.free == NULL <==> p.free == []
    ensures p.free != [] ==> 0 <= q.free < |q.next| && q.free == p.free[0]
    ensures p.free != [] ==> Ok(Acquire(q).0, p.(free := p.free[1..], flight := p.flight + {p.free[0]}))
  {
    if p.free != [] {
      HeadOf(p.free);
      assert p.free[0] in p.free;
    }
  }

  lemma {:induction false} FillOk(q: Queue, p: Parts, n: int, msg: Msg, clear: bool)
    requires Ok(q, p) && n in p.flight
    ensures 0 <= n < |q.next| && Ok(Fill(q, n, msg, clear), p) && Messages(Fill(q, n, msg, clear), p) == Messages(q, p)
  {
    if clear {
      LinksFrame(q.next, q.head, p.queue, n, NULL);
      LinksFrame(q.next, q.free, p.free, n, NULL);
    }
    assert forall i | 0 <= i < |p.queue| :: p.queue[i] in p.queue;
  }

  lemma {:induction false} TailNode(q: Queue, p: Parts)
    requires Ok(q, p)
    ensures p.queue != [] ==>
            q.tail in p.queue && 0 <= q.tail < |q.next| && q.head == p.queue[0] && 0 <= q.head < |q.next|
    ensures p.queue == [] ==> q.tail == NULL && q.head == NULL
  {
    if p.queue != [] { assert p.queue[|p.queue| - 1] in p.queue && p.queue[0] in p.queue; }
  }

  /** A cleared node in flight goes to the end of the queue. */
  lemma {:induction false} AppendOk(q: Queue, p: Parts, n: int)
    requires Ok(q, p) && n in p.flight && 0 <= n < |q.next| && q.next[n] == NULL
    ensures q.tail == NULL || 0 <= q.tail < |q.next|
    ensures var (q', p') := (Append(q, n), p.(queue := p.queue + [n], flight := p.flight - {n}));
            Ok(q', p') && Messages(q', p') == Messages(q, p) + [q.data[n]]
  {
    hide Partition, Distinct, Messages;
    TailNode(q, p);
    FlightApart(q, p);
    PartBack(p, |q.next|, n);
    var (q', xs) := (Append(q, n), p.queue + [n]);
    assert xs[|xs| - 1] == n;
    if p.queue == [] {
      assert xs == [n] && xs[1..] == [];
      assert Links(q'.next, q'.head, xs);
    } else {
      LinksAppend(q.next, q.head, p.queue, n);
      LinksFrame(q.next, q.free, p.free, q.tail, n);
      assert Links(q'.next, q'.head, xs);
    }
    BackMessage(q, p, n);
  }

  lemma {:induction false} PartBack(p: Parts, max: nat, n: int)
    requires Partition(p, max) && n in p.flight
    ensures Partition(p.(queue := p.queue + [n], flight := p.flight - {n}), max) && Distinct(p.queue)
    ensures p.queue != [] ==> p.queue[|p.queue| - 1] !in p.free
  {
    if p.queue != [] {
      var last := p.queue[|p.queue| - 1];
      assert last in p.queue;
      assert last !in p.free;
    }
  }

  lemma {:induction false} BackMessage(q: Queue, p: Parts, n: int)
    requires 0 <= n < |q.next| == |q.data| && (q.tail == NULL || 0 <= q.tail < |q.next|)
    ensures Messages(Append(q, n), p.(queue := p.queue + [n], flight := p.flight - {n})) == Messages(q, p) + [q.data[n]]
  {
  }

  /** A node in flight goes to the front of the queue. */
  lemma {:induction false} PrependOk(q: Queue, p: Parts, n: int)
    requires Ok(q, p) && n in p.flight && 0 <= n < |q.next|
    ensures var (q', p') := (Prepend(q, n), p.(queue := [n] + p.queue, flight := p.flight - {n}));
            Ok(q', p') && Messages(q', p') == [q.data[n]] + Messages(q, p)
  {
    hide Partition, Distinct, Messages;
    TailNode(q, p);
    FlightApart(q, p);
    LinksFrame(q.next, q.head, p.queue, n, q.head);
    LinksFrame(q.next, q.free, p.free, n, q.head);
    assert ([n] + p.queue)[1..] == p.queue;
    PartFront(p, |q.next|, n);
    FrontMessage(q, p, n);
  }

  lemma {:induction false} PartFront(p: Parts, max: nat, n: int)
    requires Partition(p, max) && n in p.flight
    ensures Partition(p.(queue := [n] + p.queue, flight := p.flight - {n}), max)
  {
  }

  lemma {:induction false} FrontMessage(q: Queue, p: Parts, n: int)
    requires 0 <= n < |q.next| == |q.data|
    ensures Messages(Prepend(q, n), p.(queue := [n] + p.queue, flight := p.flight - {n})) ==
            [q.data[n]] + Messages(q, p)
  {
  }

  /** The first node of the queue goes in flight, with the first message. */
  lemma {:induction false} UnlinkOk(q: Queue, p: Parts)
    requires Ok(q, p) && q.entry > 0
    ensures 0 <= q.head < |q.next|
    ensures var (q', p') := (Unlink(q).0, p.(queue := p.queue[1..], flight := p.flight + {q.head}));
            Ok(q', p') && Messages(q, p) == [q.data[q.head]] + Messages(q', p')
  {
    TailNode(q, p);
    HeadOf(p.queue);
    var rest := p.queue[1..];
    assert rest != [] ==> rest[|rest| - 1] == p.queue[|p.queue| - 1] && rest[|rest| - 1] in rest;
  }

  /** A node in flight goes back to the free list. */
  lemma {:induction false} ReturnOk(q: Queue, p: Parts, n: int)
    requires Ok(q, p) && n in p.flight && 0 <= n < |q.next|
    ensures var (q', p') := (Return(q, n), p.(free := [n] + p.free, flight := p.flight - {n}));
            Ok(q', p') && Messages(q', p') == Messages(q, p)
  {
    LinksFrame(q.next, q.head, p.queue, n, q.free);
    LinksFrame(q.next, q.free, p.free, n, q.free);
    assert ([n] + p.free)[1..] == p.free;
  }

  // ---- reset ----

  /** One turn of the reset loop: the first node goes straight to the free list. */
  function Discard(q: Queue): Queue
    requires 0 <= q.head < |q.next|
  {
    var n := q.head;
    q.(head := q.next[n], tail := if q.tail == n then NULL else q.tail, next := q.next[n := q.free], free := n,
       entry := if q.entry > 0 then q.entry - 1 else 0)
  }

  lemma {:induction false} DiscardOk(q: Queue, p: Parts)
    requires Ok(q, p) && p.queue != []
    ensures 0 <= q.head < |q.next|
    ensures Ok(Discard(q), p.(queue := p.queue[1..], free := [q.head] + p.free))
  {
    UnlinkOk(q, p);
    var (q1, p1) := (Unlink(q).0, p.(queue := p.queue[1..], flight := p.flight + {q.head}));
    TailNode(q, p);
    ReturnOk(q1, p1, q.head);
    assert p1.flight - {q.head} == p.flight;
  }

  // ---- whole runs ----

  datatype Op = DoAcquire | DoFill(n: int, msg: Msg, clear: bool) | DoAppend(n: int) | DoPrepend(n: int) | DoUnlink
                | DoReturn(n: int)
              | DoDiscard

  /** A thread works on the node it holds; rt_mq_send has cleared the link before it appends. */
  ghost predicate Legal(q: Queue, p: Parts, op: Op) {
    match op
    case DoAcquire => p.free != []
    case DoFill(n, _, _) => n in p.flight
    case DoAppend(n) => n in p.flight && 0 <= n < |q.next| && q.next[n] == NULL
    case DoPrepend(n) => n in p.flight
    case DoUnlink => q.entry > 0
    case DoReturn(n) => n in p.flight
    case DoDiscard => q.entry > 0
  }

  ghost function Step(q: Queue, p: Parts, op: Op): (Queue, Parts) {
    if !(Ok(q, p) && Legal(q, p, op)) then (q, p)
    else
    TailNode(q, p);
    AcquireOk(q, p);
    match op
    case DoAcquire => (Acquire(q).0, p.(free := p.free[1..], flight := p.flight + {p.free[0]}))
    case DoFill(n, msg, clear) => (Fill(q, n, msg, clear), p)
    case DoAppend(n) => (Append(q, n), p.(queue := p.queue + [n], flight := p.flight - {n}))
    case DoPrepend(n) => (Prepend(q, n), p.(queue := [n] + p.queue, flight := p.flight - {n}))
    case DoUnlink => (Unlink(q).0, p.(queue := p.queue[1..], flight := p.flight + {q.head}))
    case DoReturn(n) => (Return(q, n), p.(free := [n] + p.free, flight := p.flight - {n}))
    case DoDiscard => (Discard(q), p.(queue := p.queue[1..], free := [q.head] + p.free))
  }

  /** What the step does to the messages, as a sequence. */
  ghost predicate Effect(q: Queue, op: Op, before: seq<Msg>, after: seq<Msg>) {
    match op
    case DoAppend(n) => 0 <= n < |q.data| && after == before + [q.data[n]]
    case DoPrepend(n) => 0 <= n < |q.data| && after == [q.data[n]] + before
    case DoUnlink => 0 <= q.head < |q.data| && before == [q.data[q.head]] + after
    case DoDiscard => before != [] && after == before[1..]
    case _ => after == before
  }

  /** Every region keeps the partition and the lists, acts on the messages as append, prepend or
      pop-front, and leaves the nodes other threads hold alone. */
  lemma {:induction false} StepOk(q: Queue, p: Parts, op: Op)
    requires Ok(q, p) && Legal(q, p, op)
    ensures var (q', p') := Step(q, p, op);
            && Ok(q', p') && |q'.next| == |q.next| && Effect(q, op, Messages(q, p), Messages(q', p'))
            && forall n | n in p.flight && n in p'.flight && !(op.DoFill? && op.n == n) :: Untouched(q, q', n)
  {
    hide Links, Partition, Messages, Distinct;
    TailNode(q, p);
    AcquireOk(q, p);
    FlightApart(q, p);
    match op
    case DoAcquire => SameMessages(q, Acquire(q).0, p, p.(free := p.free[1..], flight := p.flight + {p.free[0]}));
    case DoFill(n, msg, clear) => FillOk(q, p, n, msg, clear);
    case DoAppend(n) => AppendOk(q, p, n);
    case DoPrepend(n) => PrependOk(q, p, n);
    case DoUnlink => UnlinkOk(q, p);
    case DoReturn(n) => ReturnOk(q, p, n);
    case DoDiscard => DiscardOk(q, p); DiscardMessages(q, p); MessagesLength(q, p);
  }

  ghost predicate Untouched(q: Queue, q': Queue, n: int) {
    0 <= n < |q.next| == |q'.next| && |q.data| == |q'.data| == |q.next| && q'.next[n] == q.next[n]
        && q'.data[n] == q.data[n]
  }

  lemma {:induction false} FlightApart(q: Queue, p: Parts)
    requires Ok(q, p)
    ensures forall n | n in p.flight :: 0 <= n < |q.next| && n !in p.queue && n !in p.free
  {
  }

  lemma {:induction false} SameMessages(q: Queue, q': Queue, p: Parts, p': Parts)
    requires q'.data == q.data && p'.queue == p.queue
    ensures Messages(q', p') == Messages(q, p)
  {
  }

  lemma {:induction false} DiscardMessages(q: Queue, p: Parts)
    requires Ok(q, p) && p.queue != [] && 0 <= q.head < |q.next|
    ensures Messages(Discard(q), p.(queue := p.queue[1..], free := [q.head] + p.free)) == Messages(q, p)[1..]
  {
  }

  ghost predicate Reaches(q: Queue, p: Parts, ops: seq<Op>, q': Queue, p': Parts)
    decreases |ops|
  {
    if ops == [] then q' == q && p' == p
    else Legal(q, p, ops[0]) && var (q1, p1) := Step(q, p, ops[0]); Reaches(q1, p1, ops[1..], q', p')
  }

  /** Over every interleaving: free list, queue and nodes in flight partition the pool, the count is the
      queue's length, and the tail is its last node or NULL. */
  lemma {:induction false} RunOk(q: Queue, p: Parts, ops: seq<Op>, q': Queue, p': Parts)
    requires Ok(q, p) && Reaches(q, p, ops, q', p')
    ensures Ok(q', p') && |q'.next| == |q.next|
    decreases |ops|
  {
    hide Ok, Legal, Step, Effect;
    if ops != [] {
      StepOk(q, p, ops[0]);
      var (q1, p1) := Step(q, p, ops[0]);
      RunOk(q1, p1, ops[1..], q', p');
    }
  }

  // ---- in place ----

  class MessageQueueObject {
    const next: array<int>
    const data: array<Msg>
    var head: int
    var tail: int
    var free: int
    var entry: nat
    ghost var parts: Parts

    ghost function View(): Queue
      reads this, next, data
    {
      Queue(next[..], data[..], head, tail, free, entry)
    }

    ghost predicate Valid()
      reads this, next, data
    {
      Ok(View(), parts)
    }

    /** rt_mq_init: all nodes on the free list. */
    constructor (max: nat)
      ensures Valid() && fresh(next) && fresh(data) && next.Length == max && parts.queue == [] && parts.flight == {}
    {
      next := new int[max](_ => NULL);
      data := new Msg[max](_ => []);
      head, tail, free, entry := NULL, NULL, NULL, 0;
      new;
      ghost var xs := [];
      var i := 0;
      while i < max
        invariant 0 <= i <= max && next.Length == max && data.Length == max && |xs| == i
        invariant head == NULL && tail == NULL && entry == 0
        invariant Distinct(xs) && (forall n :: n in xs <==> 0 <= n < i) && Links(next[..], free, xs)
      {
        LinksFrame(next[..], free, xs, i, free);
        next[i] := free;
        free := i;
        assert ([i] + xs)[1..] == xs;
        xs := [i] + xs;
        i := i + 1;
      }
      parts := Parts([], xs, {});
    }

    method AcquireNode() returns (n: int)
      requires Valid()
      modifies this
      ensures Valid() && (n == NULL <==> old(parts.free) == []) && (View(), n) == Acquire(old(View()))
      ensures n != NULL ==>
              n !in old(parts.flight) && parts.flight == old(parts.flight) + {n} && parts.queue == old(parts.queue)
      ensures n == NULL ==> parts == old(parts)
    {
      hide Links, Partition;
      AcquireOk(View(), parts);
      FlightApart(View(), parts);
      n := free;
      if n != NULL {
        free := next[n];
        parts := parts.(free := parts.free[1..], flight := parts.flight + {n});
        assert n !in old(parts.flight) by { NotYetInFlight(old(View()), old(parts)); }
      }
    }

    /** rt_mq_send, run through: EFULL, or the message is last. */
    method Send(msg: Msg) returns (full: bool)
      requires Valid() && next != data as object
      modifies this, next, data
      ensures Valid() && full == (old(parts.free) == []) && parts.flight == old(parts.flight)
      ensures Messages(View(), parts) == old(Messages(View(), parts)) + if full then [] else [msg]
    {
      hide Links, Partition, Messages, Distinct;
      ghost var (q0, p0) := (View(), parts);
      var n := AcquireNode();
      if n == NULL { return true; }
      SameMessages(q0, View(), p0, parts);
      FlightApart(View(), parts);
      FillOk(View(), parts, n, msg, true);
      ghost var q1 := View();
      next[n] := NULL;
      data[n] := msg;
      assert View() == Fill(q1, n, msg, true);
      AppendOk(View(), parts, n);
      if tail != NULL { next[tail] := n; }
      tail := n;
      if head == NULL { head := n; }
      entry := entry + 1;
      assert View() == Append(Fill(q1, n, msg, true), n);
      parts := parts.(queue := parts.queue + [n], flight := parts.flight - {n});
      return false;
    }

    /** rt_mq_urgent, run through: EFULL, or the message is first. */
    method Urgent(msg: Msg) returns (full: bool)
      requires Valid() && next != data as object
      modifies this, next, data
      ensures Valid() && full == (old(parts.free) == []) && parts.flight == old(parts.flight)
      ensures Messages(View(), parts) == (if full then [] else [msg]) + old(Messages(View(), parts))
    {
      hide Links, Partition, Messages, Distinct;
      ghost var (q0, p0) := (View(), parts);
      var n := AcquireNode();
      if n == NULL { return true; }
      SameMessages(q0, View(), p0, parts);
      FlightApart(View(), parts);
      FillOk(View(), parts, n, msg, false);
      ghost var q1 := View();
      data[n] := msg;
      assert View() == Fill(q1, n, msg, false);
      PrependOk(View(), parts, n);
      next[n] := head;
      head := n;
      if tail == NULL { tail := n; }
      entry := entry + 1;
      assert View() == Prepend(Fill(q1, n, msg, false), n);
      parts := parts.(queue := [n] + parts.queue, flight := parts.flight - {n});
      return false;
    }

    /** rt_mq_recv without waiting: nothing, or the first message. */
    method Recv() returns (got: bool, msg: Msg)
      requires Valid() && next != data as object
      modifies this, next
      ensures Valid() && got == (old(Messages(View(), parts)) != []) && parts.flight == old(parts.flight)
      ensures old(Messages(View(), parts)) == (if got then [msg] else []) + Messages(View(), parts)
    {
      hide Links, Partition, Messages, Distinct;
      ghost var q0 := View();
      MessagesLength(q0, parts);
      if entry == 0 { return false, []; }
      UnlinkOk(q0, parts);
      HeadQueued(q0, parts);
      var n := head;
      head := next[n];
      if tail == n { tail := NULL; }
      entry := entry - 1;
      assert View() == Unlink(q0).0;
      parts := parts.(queue := parts.queue[1..], flight := parts.flight + {n});
      msg := data[n];
      ReturnOk(View(), parts, n);
      ghost var q1 := View();
      next[n] := free;
      free := n;
      assert View() == Return(q1, n);
      parts := parts.(free := [n] + parts.free, flight := parts.flight - {n});
      got := true;
    }

    /** rt_mq_control with RT_IPC_CMD_RESET: the queue is emptied into the free list. */
    method Reset()
      requires Valid() && next != data as object
      modifies this, next
      ensures Valid() && parts.queue == [] && parts.flight == old(parts.flight)
    {
      hide Links, Partition, Distinct;
      TailNode(View(), parts);
      ghost var n0 := entry;
      while head != NULL
        invariant Ok(View().(entry := |parts.queue|), parts) && parts.flight == old(parts.flight)
        decreases |parts.queue|
      {
        ghost var q0 := View().(entry := |parts.queue|);
        TailNode(q0, parts);
        DiscardOk(q0, parts);
        var msg := head;
        head := next[msg];
        if tail == msg { tail := NULL; }
        next[msg] := free;
        free := msg;
        parts := parts.(queue := parts.queue[1..], free := [msg] + parts.free);
        assert View().(entry := |parts.queue|) == Discard(q0);
      }
      TailNode(View().(entry := |parts.queue|), parts);
      entry := 0;
    }
  }

  lemma {:induction false} NotYetInFlight(q: Queue, p: Parts)
    requires Ok(q, p) && p.free != []
    ensures p.free[0] !in p.flight
  {
    assert p.free[0] in p.free;
  }

  lemma {:induction false} HeadQueued(q: Queue, p: Parts)
    requires Ok(q, p) && q.entry > 0
    ensures q.head !in p.flight
  {
    assert q.head in p.queue;
  }

  lemma {:induction false} MessagesLength(q: Queue, p: Parts)
    requires Ok(q, p)
    ensures |Messages(q, p)| == q.entry
  {
  }
}
