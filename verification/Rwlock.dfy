/** Read-write locks of components/pthreads/pthread_rwlock.c over the semaphores of pthread_cond.c. */
module Rwlock {
  import opened Seqs
  import opened Options
  import L = SortedList

  // Each step is one stretch of code that holds rw_mutex, or a step of a waiting thread at its semaphore.
  // A waiting thread sleeps, or has got a token, or has given up; in the last two cases it still has to
  // take rw_mutex again.

  type Id = nat

  /** `ref`, `nreaders`, `nwriters` are rw_refcount, rw_nwaitreaders, rw_nwaitwriters; `rtokens` and
      `wtokens` are the semaphore counts.  `readers` and `writer` record who holds the lock. */
  datatype Lock = Lock(ref: int, nreaders: nat, nwriters: nat, rtokens: nat, wtokens: nat,
                       rsleep: set<Id>, rwoken: set<Id>, rfailed: set<Id>,
                       wsleep: set<Id>, wwoken: set<Id>, wfailed: set<Id>,
                       readers: multiset<Id>, writer: Option<Id>)

  predicate MayRead(s: Lock) { s.ref >= 0 && s.nwriters == 0 }

  /** The test at the head of the loop of pthread_rwlock_rdlock: in, or to the condition. */
  function ReadTest(s: Lock, t: Id): Lock {
    if MayRead(s) then s.(ref := s.ref + 1, readers := s.readers + multiset{t})
    else s.(nreaders := s.nreaders + 1, rsleep := s.rsleep + {t})
  }

  function WriteTest(s: Lock, t: Id): Lock {
    if s.ref == 0 then s.(ref := -1, writer := Some(t)) else s.(nwriters := s.nwriters + 1, wsleep := s.wsleep + {t})
  }

  /** A waiting reader has rw_mutex again. */
  function ReadReturn(s: Lock, t: Id): Lock
    requires s.nreaders > 0
  {
    var s1 := s.(nreaders := s.nreaders - 1, rwoken := s.rwoken - {t}, rfailed := s.rfailed - {t});
    if t in s.rwoken then ReadTest(s1, t) else s1
  }

  function WriteReturn(s: Lock, t: Id): Lock
    requires s.nwriters > 0
  {
    var s1 := s.(nwriters := s.nwriters - 1, wwoken := s.wwoken - {t}, wfailed := s.wfailed - {t});
    if t in s.wwoken then WriteTest(s1, t) else s1
  }

  function TryRead(s: Lock, t: Id): Lock { if MayRead(s) then ReadTest(s, t) else s }

  function TryWrite(s: Lock, t: Id): Lock { if s.ref == 0 then WriteTest(s, t) else s }

  /** pthread_cond_broadcast: `heard`, those already suspended on the semaphore, all get a token, and one
      is left over; a semaphore that has a token already is left as it is. */
  function Broadcast(s: Lock, heard: set<Id>): Lock {
    if s.rtokens > 0 then s
    else s.(rtokens := 1, rsleep := s.rsleep - heard, rwoken := s.rwoken + (s.rsleep * heard))
  }

  /** The lock is given up by a holder. */
  function Down(s: Lock, t: Id): Lock {
    if s.ref > 0 then s.(ref := s.ref - 1, readers := s.readers - multiset{t})
    else if s.ref == -1 then s.(ref := 0, writer := None)
    else s
  }

  /** pthread_rwlock_unlock by a holder. */
  function Unlock(s: Lock, t: Id, heard: set<Id>): Lock {
    var s1 := Down(s, t);
    if s1.nwriters > 0 then (if s1.ref == 0 then s1.(wtokens := s1.wtokens + 1) else s1)
    else if s1.nreaders > 0 then Broadcast(s1, heard)
    else s1
  }

  datatype Op =
    | Read(t: Id) | Write(t: Id) | TryR(t: Id) | TryW(t: Id) | ReadBack(t: Id) | WriteBack(t: Id)
    | Release(t: Id, heard: set<Id>)
    | ReadToken(t: Id) | WriteToken(t: Id) | ReadExpire(t: Id) | WriteExpire(t: Id)
    | Stray(readers: bool)

  /** Any thread may come, a waiting one only return; a token must be there to be taken; only a holder
      unlocks.  A stray token may appear at any time. */
  ghost predicate Legal(s: Lock, op: Op) {
    match op
    case Read(t) => !Waiting(s, t)
    case Write(t) => !Waiting(s, t)
    case TryR(t) => !Waiting(s, t)
    case TryW(t) => !Waiting(s, t)
    case ReadBack(t) => t in s.rwoken || t in s.rfailed
    case WriteBack(t) => t in s.wwoken || t in s.wfailed
    case Release(t, _) => t in s.readers || s.writer == Some(t)
    case ReadToken(t) => t in s.rsleep && s.rtokens > 0
    case WriteToken(t) => t in s.wsleep && s.wtokens > 0
    case ReadExpire(t) => t in s.rsleep
    case WriteExpire(t) => t in s.wsleep
    case Stray(_) => true
  }

  ghost predicate Waiting(s: Lock, t: Id) {
    t in s.rsleep || t in s.rwoken || t in s.rfailed || t in s.wsleep || t in s.wwoken || t in s.wfailed
  }

  /** There is a waiter to count off, or a token to take. */
  predicate Countable(s: Lock, op: Op) {
    && (op.ReadBack? ==> s.nreaders > 0) && (op.WriteBack? ==> s.nwriters > 0)
    && (op.ReadToken? ==> s.rtokens > 0) && (op.WriteToken? ==> s.wtokens > 0)
  }

  function Step(s: Lock, op: Op): Lock {
    if !Countable(s, op) then s
    else
    match op
    case Read(t) => ReadTest(s, t)
    case Write(t) => WriteTest(s, t)
    case TryR(t) => TryRead(s, t)
    case TryW(t) => TryWrite(s, t)
    case ReadBack(t) => ReadReturn(s, t)
    case WriteBack(t) => WriteReturn(s, t)
    case Release(t, heard) => Unlock(s, t, heard)
    case ReadToken(t) => s.(rtokens := s.rtokens - 1, rsleep := s.rsleep - {t}, rwoken := s.rwoken + {t})
    case WriteToken(t) => s.(wtokens := s.wtokens - 1, wsleep := s.wsleep - {t}, wwoken := s.wwoken + {t})
    case ReadExpire(t) => s.(rsleep := s.rsleep - {t}, rfailed := s.rfailed + {t})
    case WriteExpire(t) => s.(wsleep := s.wsleep - {t}, wfailed := s.wfailed + {t})
    case Stray(r) => if r then s.(rtokens := s.rtokens + 1) else s.(wtokens := s.wtokens + 1)
  }

  // ---- exclusion ----

  /** rw_refcount is -1 with one writer and no reader, n >= 0 with n read locks and no writer. */
  ghost predicate Exclusive(s: Lock) {
    if s.writer.Some? then s.ref == -1 && s.readers == multiset{} else s.ref == |s.readers|
  }

  function Reading(s: Lock): set<Id> { s.rsleep + s.rwoken + s.rfailed }

  function Writing(s: Lock): set<Id> { s.wsleep + s.wwoken + s.wfailed }

  /** The counters count those between going to the condition and having rw_mutex again. */
  ghost predicate Counted(s: Lock) {
    && s.rsleep !! s.rwoken && s.rsleep !! s.rfailed && s.rwoken !! s.rfailed
    && s.wsleep !! s.wwoken && s.wsleep !! s.wfailed && s.wwoken !! s.wfailed
    && Reading(s) !! Writing(s)
    && s.nreaders == |s.rsleep| + |s.rwoken| + |s.rfailed|
    && s.nwriters == |s.wsleep| + |s.wwoken| + |s.wfailed|
  }

  /** No waiting writer is forgotten: when the lock is free and a writer is counted waiting, a token is
      there for it, or a writer is on its way back. */
  ghost predicate WritersKnown(s: Lock) { s.ref == 0 && s.nwriters > 0 ==> s.wtokens > 0 || s.wwoken != {} }

  /** The same for readers, when no writer is counted waiting. */
  ghost predicate ReadersKnown(s: Lock) {
    s.ref == 0 && s.nwriters == 0 && s.nreaders > 0 ==> s.rtokens > 0 || s.rwoken != {}
  }

  ghost predicate Inv(s: Lock) { Exclusive(s) && Counted(s) && WritersKnown(s) }

  lemma {:induction false} Some1(s: set<Id>, t: Id)
    requires t in s
    ensures |s| > 0 && |s - {t}| == |s| - 1
  {
  }

  lemma {:induction false} StepDefined(s: Lock, op: Op)
    requires Counted(s) && Legal(s, op)
    ensures Countable(s, op)
  {
    if op.ReadBack? { if op.t in s.rwoken { Some1(s.rwoken, op.t); } else { Some1(s.rfailed, op.t); } }
    if op.WriteBack? { if op.t in s.wwoken { Some1(s.wwoken, op.t); } else { Some1(s.wfailed, op.t); } }
  }

  lemma {:induction false} ReadTestOk(s: Lock, t: Id)
    requires Inv(s) && !Waiting(s, t)
    ensures Inv(ReadTest(s, t))
  {
    var s' := ReadTest(s, t);
    if !MayRead(s) { Some1(s'.rsleep, t); assert s'.rsleep - {t} == s.rsleep; }
  }

  lemma {:induction false} WriteTestOk(s: Lock, t: Id)
    requires Exclusive(s) && Counted(s) && !Waiting(s, t)
    ensures Inv(WriteTest(s, t))
  {
    var s' := WriteTest(s, t);
    if s.ref != 0 { Some1(s'.wsleep, t); assert s'.wsleep - {t} == s.wsleep; }
  }

  /** Sleepers, woken and failed of one side, and how many they are. */
  ghost predicate Side(a: set<Id>, b: set<Id>, c: set<Id>, n: nat, all: set<Id>) {
    a !! b && a !! c && b !! c && n == |a| + |b| + |c| && all == a + b + c
  }

  /** Thread `t` stops sleeping. */
  lemma {:induction false} Moved(a: set<Id>, b: set<Id>, c: set<Id>, n: nat, all: set<Id>, t: Id)
    requires Side(a, b, c, n, all) && t in a
    ensures Side(a - {t}, b + {t}, c, n, all) && Side(a - {t}, b, c + {t}, n, all)
  {
    Some1(a, t);
  }

  lemma {:induction false} Sides(s: Lock)
    ensures Counted(s) <==>
            && Side(s.rsleep, s.rwoken, s.rfailed, s.nreaders, Reading(s))
            && Side(s.wsleep, s.wwoken, s.wfailed, s.nwriters, Writing(s))
            && Reading(s) !! Writing(s)
    ensures Reading(s) == s.rsleep + s.rwoken + s.rfailed && Writing(s) == s.wsleep + s.wwoken + s.wfailed
  {
  }

  lemma {:induction false} SideIs(a: set<Id>, b: set<Id>, c: set<Id>, n: nat, all: set<Id>)
    requires Side(a, b, c, n, all)
    ensures all == a + b + c
  {
  }

  /** Exclusion and the sides that did not change. */
  lemma {:induction false} Same(s: Lock, s': Lock)
    requires s'.ref == s.ref && s'.readers == s.readers && s'.writer == s.writer
    ensures Exclusive(s) ==> Exclusive(s')
    ensures s'.wsleep == s.wsleep && s'.wwoken == s.wwoken && s'.wfailed == s.wfailed ==> Writing(s') == Writing(s)
    ensures s'.rsleep == s.rsleep && s'.rwoken == s.rwoken && s'.rfailed == s.rfailed ==> Reading(s') == Reading(s)
    ensures s'.nwriters == s.nwriters && s'.wtokens == s.wtokens && s'.wwoken == s.wwoken ==>
            (WritersKnown(s) <==> WritersKnown(s'))
  {
  }

  /** Thread `t` has rw_mutex again. */
  lemma {:induction false} Leaves(a: set<Id>, b: set<Id>, c: set<Id>, n: nat, all: set<Id>, t: Id)
    requires Side(a, b, c, n, all) && (t in b || t in c)
    ensures n > 0 && Side(a, b - {t}, c - {t}, n - 1, all - {t})
  {
    if t in b { Some1(b, t); assert c - {t} == c; } else { Some1(c, t); assert b - {t} == b; }
  }

  /** Those of `a` that are in `h` get a token. */
  lemma {:induction false} Hear(a: set<Id>, b: set<Id>, c: set<Id>, n: nat, all: set<Id>, h: set<Id>)
    requires Side(a, b, c, n, all)
    ensures Side(a - h, b + (a * h), c, n, all)
  {
    assert a == (a - h) + (a * h);
    assert |a - h| + |a * h| == |a|;
    assert |b + (a * h)| == |b| + |a * h|;
  }

  lemma {:induction false} WaitingIs(s: Lock, t: Id)
    ensures Waiting(s, t) <==> t in Reading(s) || t in Writing(s)
  {
  }

  lemma {:induction false} ReadBackOk(s: Lock, t: Id)
    requires Inv(s) && (t in s.rwoken || t in s.rfailed)
    ensures s.nreaders > 0 && Inv(ReadReturn(s, t))
  {
    hide Exclusive, Counted, Reading, Writing, Side, Waiting, ReadTest;
    Sides(s);
    Leaves(s.rsleep, s.rwoken, s.rfailed, s.nreaders, Reading(s), t);
    var s1 := s.(nreaders := s.nreaders - 1, rwoken := s.rwoken - {t}, rfailed := s.rfailed - {t});
    SideIs(s1.rsleep, s1.rwoken, s1.rfailed, s1.nreaders, Reading(s) - {t});
    Sides(s1);
    Same(s, s1);
    WaitingIs(s1, t);
    if t in s.rwoken { ReadTestOk(s1, t); }
  }

  lemma {:induction false} WriteBackOk(s: Lock, t: Id)
    requires Inv(s) && (t in s.wwoken || t in s.wfailed)
    ensures s.nwriters > 0 && Inv(WriteReturn(s, t))
  {
    hide Exclusive, Counted, Reading, Writing, Side, Waiting, WriteTest;
    Sides(s);
    Leaves(s.wsleep, s.wwoken, s.wfailed, s.nwriters, Writing(s), t);
    var s1 := s.(nwriters := s.nwriters - 1, wwoken := s.wwoken - {t}, wfailed := s.wfailed - {t});
    SideIs(s1.wsleep, s1.wwoken, s1.wfailed, s1.nwriters, Writing(s) - {t});
    Sides(s1);
    Same(s, s1);
    WaitingIs(s1, t);
    if t in s.wwoken { WriteTestOk(s1, t); } else { assert s.wwoken - {t} == s.wwoken; }
  }

  lemma {:induction false} BroadcastOk(s: Lock, heard: set<Id>)
    requires Inv(s)
    ensures Inv(Broadcast(s, heard))
  {
    hide Exclusive, Counted, Reading, Writing, Side, WritersKnown;
    var s' := Broadcast(s, heard);
    if s.rtokens == 0 {
      Sides(s);
      Sides(s');
      Hear(s.rsleep, s.rwoken, s.rfailed, s.nreaders, Reading(s), heard);
      SideIs(s'.rsleep, s'.rwoken, s'.rfailed, s.nreaders, Reading(s));
      Same(s, s');
    }
  }

  lemma {:induction false} UnlockOk(s: Lock, t: Id, heard: set<Id>)
    requires Inv(s) && (t in s.readers || s.writer == Some(t))
    ensures Inv(Unlock(s, t, heard))
  {
    var s1 := if s.ref > 0 then s.(ref := s.ref - 1, readers := s.readers - multiset{t})
              else s.(ref := 0, writer := None);
    if s.writer.None? {
      assert s.readers == (s.readers - multiset{t}) + multiset{t};
      assert |s.readers - multiset{t}| == |s.readers| - 1;
    }
    assert Exclusive(s1) && Counted(s1);
    if s1.nwriters == 0 && s1.nreaders > 0 { BroadcastOk(s1, heard); }
  }

  lemma {:induction false} ReaderMoves(s: Lock, t: Id, tokens: nat, woken: bool)
    requires Inv(s) && t in s.rsleep
    ensures Inv(s.(rtokens := tokens, rsleep := s.rsleep - {t}, rwoken := if woken then s.rwoken + {t} else s.rwoken,
                   rfailed := if woken then s.rfailed else s.rfailed + {t}))
  {
    hide Exclusive, WritersKnown, Counted, Reading, Writing, Side;
    var s' := s.(rtokens := tokens, rsleep := s.rsleep - {t}, rwoken := if woken then s.rwoken + {t} else s.rwoken,
                 rfailed := if woken then s.rfailed else s.rfailed + {t});
    Sides(s);
    Sides(s');
    Moved(s.rsleep, s.rwoken, s.rfailed, s.nreaders, Reading(s), t);
    SideIs(s'.rsleep, s'.rwoken, s'.rfailed, s.nreaders, Reading(s));
    Same(s, s');
  }

  lemma {:induction false} WriterMoves(s: Lock, t: Id, tokens: nat, woken: bool)
    requires Inv(s) && t in s.wsleep && (!woken ==> tokens == s.wtokens)
    ensures Inv(s.(wtokens := tokens, wsleep := s.wsleep - {t}, wwoken := if woken then s.wwoken + {t} else s.wwoken,
                   wfailed := if woken then s.wfailed else s.wfailed + {t}))
  {
    hide Exclusive, Counted, Reading, Writing, Side;
    var s' := s.(wtokens := tokens, wsleep := s.wsleep - {t}, wwoken := if woken then s.wwoken + {t} else s.wwoken,
                 wfailed := if woken then s.wfailed else s.wfailed + {t});
    Sides(s);
    Sides(s');
    Moved(s.wsleep, s.wwoken, s.wfailed, s.nwriters, Writing(s), t);
    SideIs(s'.wsleep, s'.wwoken, s'.wfailed, s.nwriters, Writing(s));
    Same(s, s');
    assert woken ==> t in s'.wwoken;
  }

  lemma {:induction false} StepOk(s: Lock, op: Op)
    requires Inv(s) && Legal(s, op)
    ensures Inv(Step(s, op))
  {
    hide Exclusive, Counted, Waiting;
    StepDefined(s, op);
    match op
    case Read(t) => ReadTestOk(s, t);
    case Write(t) => WriteTestOk(s, t);
    case TryR(t) => ReadTestOk(s, t);
    case TryW(t) => WriteTestOk(s, t);
    case ReadBack(t) => ReadBackOk(s, t);
    case WriteBack(t) => WriteBackOk(s, t);
    case Release(t, heard) => UnlockOk(s, t, heard);
    case ReadToken(t) => ReaderMoves(s, t, s.rtokens - 1, true);
    case WriteToken(t) => WriterMoves(s, t, s.wtokens - 1, true);
    case ReadExpire(t) => ReaderMoves(s, t, s.rtokens, false);
    case WriteExpire(t) => WriterMoves(s, t, s.wtokens, false);
    case Stray(r) => StrayOk(s, r);
  }

  lemma {:induction false} StrayOk(s: Lock, r: bool)
    requires Inv(s)
    ensures Inv(if r then s.(rtokens := s.rtokens + 1) else s.(wtokens := s.wtokens + 1))
  {
  }

  // ---- whole runs ----

  ghost predicate Reaches(s: Lock, ops: seq<Op>, s': Lock)
    decreases |ops|
  {
    if ops == [] then s' == s
    else Legal(s, ops[0]) && Reaches(Step(s, ops[0]), ops[1..], s')
  }

  /** Over every interleaving, stray tokens included: one writer or any number of readers, and no waiting
      writer is forgotten. */
  lemma {:induction false} RunOk(s: Lock, ops: seq<Op>, s': Lock)
    requires Inv(s) && Reaches(s, ops, s')
    ensures Inv(s')
    decreases |ops|
  {
    hide Inv, Legal, Step;
    if ops != [] {
      StepOk(s, ops[0]);
      RunOk(Step(s, ops[0]), ops[1..], s');
    }
  }

  /** A reader gets in only while no writer holds the lock or is counted waiting. */
  lemma {:induction false} ReaderEnters(s: Lock, op: Op)
    requires Inv(s) && Legal(s, op)
    ensures |Step(s, op).readers| > |s.readers| ==> s.writer.None? && s.nwriters == 0
  {
    hide Counted, Waiting, WritersKnown;
    StepDefined(s, op);
    var s' := Step(s, op);
    if s'.readers == s.readers {
    } else if op.Release? {
      FewerReaders(s, op.t, op.heard);
    }
  }

  /** A reader that comes, tries, or was woken by a token gets a read lock exactly when no writer holds the
      lock or is counted waiting; else it waits again, or is turned away. */
  lemma {:induction false} ReaderGetsIn(s: Lock, op: Op)
    requires Inv(s) && Legal(s, op) && (op.Read? || op.TryR? || (op.ReadBack? && op.t in s.rwoken))
    ensures var (s', free) := (Step(s, op), s.writer.None? && s.nwriters == 0);
            && s'.readers == (if free then s.readers + multiset{op.t} else s.readers)
            && (op.t in s'.rsleep <==> !free && !op.TryR?) && s'.writer == s.writer
  {
    hide Counted, WritersKnown;
    StepDefined(s, op);
    CountedApart(s);
  }

  /** A writer that comes, tries, or was woken by a token gets the lock exactly when nobody holds it. */
  lemma {:induction false} WriterGetsIn(s: Lock, op: Op)
    requires Inv(s) && Legal(s, op) && (op.Write? || op.TryW? || (op.WriteBack? && op.t in s.wwoken))
    ensures var (s', free) := (Step(s, op), s.writer.None? && s.readers == multiset{});
            && s'.writer == (if free then Some(op.t) else s.writer)
            && (op.t in s'.wsleep <==> !free && !op.TryW?) && s'.readers == s.readers
  {
    hide Counted, WritersKnown;
    StepDefined(s, op);
    CountedApart(s);
    assert |s.readers| == 0 <==> s.readers == multiset{};
  }

  /** What unlocking comes to.  One hold of the caller is gone and no other.  A counted writer keeps the
      readers from being told, and gets one token if nobody holds the lock any more; else every reader that
      is suspended is woken, and a token is there for one that is about to be. */
  lemma {:induction false} UnlockResult(s: Lock, t: Id, heard: set<Id>)
    requires Inv(s) && Legal(s, Release(t, heard))
    ensures var s' := Unlock(s, t, heard);
            var held := s'.writer.Some? || s'.readers != multiset{};
            && (if s.writer.Some? then s'.writer.None? && s'.readers == s.readers
                else s'.writer.None? && s'.readers == s.readers - multiset{t})
            && s'.wtokens == s.wtokens + (if s.nwriters > 0 && !held then 1 else 0)
            && (if s.nwriters > 0 || s.nreaders == 0 || s.rtokens > 0
                then s'.rtokens == s.rtokens && s'.rsleep == s.rsleep && s'.rwoken == s.rwoken
                else && s'.rtokens == 1 && (forall u | u in heard && u in s.rsleep :: u in s'.rwoken)
                     && (forall u :: u in s'.rsleep <==> u in s.rsleep && u !in heard)
                     && forall u | u in s'.rwoken :: u in s.rwoken || u in s.rsleep)
            && s'.nwriters == s.nwriters && s'.nreaders == s.nreaders && Writing(s') == Writing(s)
            && s'.rfailed == s.rfailed
  {
    hide Counted, Waiting, WritersKnown;
    var s1 := Down(s, t);
    assert |s.readers| == 0 <==> s.readers == multiset{};
    assert |s1.readers| == 0 <==> s1.readers == multiset{};
    if s.writer.None? { assert |s.readers - multiset{t}| == |s.readers| - 1; }
  }

  /** A sleeping thread wakes by taking exactly one token, or because its time is up; the lock itself and all
      other threads stay as they are. */
  lemma {:induction false} SleepEnds(s: Lock, op: Op)
    requires Inv(s) && Legal(s, op) && (op.ReadToken? || op.WriteToken? || op.ReadExpire? || op.WriteExpire?)
    ensures var s' := Step(s, op);
            && s'.ref == s.ref && s'.readers == s.readers && s'.writer == s.writer
            && s'.nreaders == s.nreaders && s'.nwriters == s.nwriters
            && s'.rtokens == s.rtokens - (if op.ReadToken? then 1 else 0)
            && s'.wtokens == s.wtokens - (if op.WriteToken? then 1 else 0)
            && op.t !in s'.rsleep && op.t !in s'.wsleep
            && (op.t in s'.rwoken <==> op.ReadToken?) && (op.t in s'.wwoken <==> op.WriteToken?)
            && (op.t in s'.rfailed <==> op.ReadExpire?) && (op.t in s'.wfailed <==> op.WriteExpire?)
            && forall u | u != op.t ::
                 && (u in s'.rsleep <==> u in s.rsleep) && (u in s'.rwoken <==> u in s.rwoken)
                 && (u in s'.wsleep <==> u in s.wsleep) && (u in s'.wwoken <==> u in s.wwoken)
  {
    hide WritersKnown, Exclusive;
  }

  /** A thread whose timed wait is over leaves without the lock, and is counted no more. */
  lemma {:induction false} FailedLeaves(s: Lock, op: Op)
    requires Inv(s) && Legal(s, op)
    requires (op.ReadBack? && op.t !in s.rwoken) || (op.WriteBack? && op.t !in s.wwoken)
    ensures var s' := Step(s, op);
            && s'.readers == s.readers && s'.writer == s.writer && s'.ref == s.ref && !Waiting(s', op.t)
            && s'.nreaders == s.nreaders - (if op.ReadBack? then 1 else 0)
            && s'.nwriters == s.nwriters - (if op.WriteBack? then 1 else 0)
            && s'.rtokens == s.rtokens && s'.wtokens == s.wtokens
  {
    hide WritersKnown, Exclusive;
    StepDefined(s, op);
  }

  lemma {:induction false} CountedApart(s: Lock)
    requires Counted(s)
    ensures s.rsleep !! s.rwoken && s.wsleep !! s.wwoken
  {
  }

  lemma {:induction false} FewerReaders(s: Lock, t: Id, heard: set<Id>)
    ensures |Unlock(s, t, heard).readers| <= |s.readers|
  {
    assert |s.readers - multiset{t}| <= |s.readers|;
  }

  /** A step that forgets the waiting readers: the last counted writer leaves after its time was up, the
      lock is free, and the token of the unlock went to the writers. */
  predicate Forgets(s: Lock, op: Op) {
    && op.WriteBack? && op.t in s.wfailed && op.t !in s.wwoken && s.nwriters == 1
    && s.ref == 0 && s.nreaders > 0 && s.rtokens == 0 && s.rwoken == {}
  }

  /** Waiting readers are not forgotten, exactly but for that step. */
  lemma {:induction false} ReadersStep(s: Lock, op: Op)
    requires Inv(s) && ReadersKnown(s) && Legal(s, op)
    ensures ReadersKnown(Step(s, op)) <==> !Forgets(s, op)
  {
    hide Counted, Waiting, WritersKnown;
    StepDefined(s, op);
    if op.ReadToken? { assert op.t in Step(s, op).rwoken; }
    if op.Release? { ReleaseKnown(s, op.t, op.heard); }
    if op.ReadBack? && op.t !in s.rwoken { assert s.rwoken - {op.t} == s.rwoken; }
  }

  lemma {:induction false} ReleaseKnown(s: Lock, t: Id, heard: set<Id>)
    ensures var s' := Unlock(s, t, heard); s'.nwriters == 0 && s'.nreaders > 0 ==> s'.rtokens > 0
  {
  }

  lemma {:induction false} NoneFail(s: Lock, op: Op)
    requires Inv(s) && Legal(s, op) && s.wfailed == {} && !op.WriteExpire?
    ensures Step(s, op).wfailed == {}
  {
    hide Inv, Counted, Waiting, WritersKnown, Exclusive;
    StepOk(s, op);
  }

  /** In every run in which no writer's timed wait expires, no waiting reader is forgotten. */
  lemma {:induction false} RunReaders(s: Lock, ops: seq<Op>, s': Lock)
    requires Inv(s) && ReadersKnown(s) && s.wfailed == {} && Reaches(s, ops, s')
    requires forall i | 0 <= i < |ops| :: !ops[i].WriteExpire?
    ensures ReadersKnown(s')
    decreases |ops|
  {
    hide Inv, Legal, Step, ReadersKnown;
    if ops != [] {
      StepOk(s, ops[0]);
      ReadersStep(s, ops[0]);
      NoneFail(s, ops[0]);
      RunReaders(Step(s, ops[0]), ops[1..], s');
    }
  }

  function Init(): Lock { Lock(0, 0, 0, 0, 0, {}, {}, {}, {}, {}, {}, multiset{}, None) }

  lemma {:induction false} InitOk()
    ensures Inv(Init()) && ReadersKnown(Init())
  {
  }

  /** Thread 1 reads, 2 waits to write, 3 waits to read behind it; 2's time is up, 1 unlocks and signals
      the writers, 2 leaves. */
  function Story(n: nat): Lock {
    if n == 0 then Init()
    else if n == 1 then ReadTest(Story(0), 1)
    else if n == 2 then WriteTest(Story(1), 2)
    else if n == 3 then ReadTest(Story(2), 3)
    else if n == 4 then Story(3).(wsleep := Story(3).wsleep - {2}, wfailed := Story(3).wfailed + {2})
    else Unlock(Story(4), 1, {})
  }

  lemma {:induction false} StoryStates()
    ensures Story(1) == Init().(ref := 1, readers := multiset{1})
    ensures Story(2) == Story(1).(nwriters := 1, wsleep := {2})
    ensures Story(3) == Story(2).(nreaders := 1, rsleep := {3})
    ensures Story(4) == Story(3).(wsleep := {}, wfailed := {2})
    ensures Story(5) == Story(4).(ref := 0, readers := multiset{}, wtokens := 1)
  {
    assert Story(0) == Init();
    assert multiset{1} - multiset{1} == multiset{};
    assert Story(1) == ReadTest(Init(), 1);
    assert Story(2) == WriteTest(Story(1), 2);
    assert Story(3) == ReadTest(Story(2), 3);
    assert Story(5) == Unlock(Story(4), 1, {});
  }

  /** With a timed writer a reader can be forgotten: the story is a legal run, and at its end, when the
      writer has left, the lock is free, nobody is on the way, and thread 3 sleeps. */
  lemma {:induction false} Stranded()
    ensures Reaches(Init(), [Read(1), Write(2), Read(3), WriteExpire(2), Release(1, {})], Story(5))
    ensures Inv(Story(5)) && Legal(Story(5), WriteBack(2)) && Forgets(Story(5), WriteBack(2)) && Story(5).rsleep == {3}
    ensures Step(Story(5), WriteBack(2)) == Init().(wtokens := 1, nreaders := 1, rsleep := {3})
    ensures !ReadersKnown(Step(Story(5), WriteBack(2)))
  {
    hide Inv, ReadTest, WriteTest, Unlock, Waiting;
    StoryStates();
    assert {2} - {2} == {} && {} - {2} == {};
    InitOk();
    StoryLegal();
    StoryOne(0, Read(1), [Write(2), Read(3), WriteExpire(2), Release(1, {})]);
    StoryOne(1, Write(2), [Read(3), WriteExpire(2), Release(1, {})]);
    StoryOne(2, Read(3), [WriteExpire(2), Release(1, {})]);
    StoryOne(3, WriteExpire(2), [Release(1, {})]);
    StoryOne(4, Release(1, {}), []);
  }

  /** The n-th operation of the story. */
  function StoryOp(n: nat): Op {
    if n == 0 then Read(1)
    else if n == 1 then Write(2)
    else if n == 2 then Read(3)
    else if n == 3 then WriteExpire(2)
    else Release(1, {})
  }

  lemma {:induction false} StoryLegal()
    ensures forall n: nat | n < 5 :: Legal(Story(n), StoryOp(n)) && Story(n + 1) == Step(Story(n), StoryOp(n))
  {
    StoryStates();
    assert Story(0) == Init();
    forall n: nat | n < 5 ensures Legal(Story(n), StoryOp(n)) && Story(n + 1) == Step(Story(n), StoryOp(n)) {
      assert n == 0 || n == 1 || n == 2 || n == 3 || n == 4;
      assert 1 in multiset{1};
    }
  }

  lemma {:induction false} StoryOne(n: nat, op: Op, ops: seq<Op>)
    requires n < 5 && op == StoryOp(n) && Inv(Story(n)) && Legal(Story(n), op) && Story(n + 1) == Step(Story(n), op)
    ensures Inv(Story(n + 1)) && forall s' :: Reaches(Story(n), [op] + ops, s') <==> Reaches(Story(n + 1), ops, s')
  {
    hide Inv, Legal, Step, Story;
    StepOk(Story(n), op);
    ReachesOne(Story(n), op, ops);
  }

  lemma {:induction false} ReachesOne(s: Lock, op: Op, ops: seq<Op>)
    requires Inv(s) && Legal(s, op)
    ensures forall s' :: Reaches(s, [op] + ops, s') <==> Reaches(Step(s, op), ops, s')
  {
    hide Inv, Legal, Step;
    StepOk(s, op);
    assert ([op] + ops)[0] == op && ([op] + ops)[1..] == ops;
  }

  // ---- in place ----

  /** The semaphore of a condition variable: a count, or threads suspended on it. */
  class Condition {
    var value: nat
    var waiters: seq<Id>

    /** Nobody is suspended while there is a token. */
    ghost predicate Valid()
      reads this
    {
      value > 0 ==> waiters == []
    }

    constructor ()
      ensures value == 0 && waiters == [] && Valid()
    {
      value, waiters := 0, [];
    }

    /** rt_sem_take: a token, or to the end of the list. */
    method SemTake(t: Id) returns (ok: bool)
      modifies this
      ensures ok == (old(value) > 0) && (old(Valid()) ==> Valid())
      ensures if ok then value == old(value) - 1 && waiters == old(waiters)
              else value == old(value) && waiters == old(waiters) + [t]
    {
      ok := value > 0;
      if ok { value := value - 1; } else { waiters := waiters + [t]; }
    }

    /** A suspended thread's timer expires. */
    method TimedOut(t: Id)
      modifies this
      ensures value == old(value) && waiters == L.Del(old(waiters), t) && (old(Valid()) ==> Valid())
    {
      waiters := L.Del(waiters, t);
    }

    /** rt_sem_release: wake the first waiter, or count. */
    method SemRelease() returns (woken: Option<Id>)
      modifies this
      ensures old(waiters) != [] ==>
              woken == Some(old(waiters[0])) && waiters == old(waiters[1..]) && value == old(value)
      ensures old(waiters) == [] ==> woken == None && waiters == [] && value == old(value) + 1
      ensures old(Valid()) ==> Valid()
    {
      if waiters != [] {
        woken := Some(waiters[0]);
        waiters := waiters[1..];
      } else {
        woken := None;
        value := value + 1;
      }
    }

    /** pthread_cond_broadcast: release until a take succeeds, then put that token back. */
    method CondBroadcast() returns (woken: seq<Id>)
      modifies this
      ensures old(value) == 0 ==> value == 1 && waiters == [] && woken == old(waiters)
      ensures old(value) > 0 && old(waiters) == [] ==> value == old(value) && waiters == [] && woken == []
      ensures old(value) > 0 && old(waiters) != [] ==>
                value == old(value) - 1 && waiters == old(waiters[1..]) && woken == [old(waiters[0])]
      ensures old(Valid()) ==> Valid()
    {
      woken := [];
      while value == 0
        invariant woken + waiters == old(waiters)
        invariant value == old(value) || (old(value) == 0 && value == 1 && waiters == [])
        invariant old(value) > 0 ==> waiters == old(waiters) && woken == []
        decreases value == 0, |waiters|
      {
        ghost var before := waiters;
        var w := SemRelease();
        if w.Some? {
          assert before == [w.value] + waiters;
          woken := woken + [w.value];
        }
      }
      value := value - 1;
      var w := SemRelease();
      if w.Some? { woken := woken + [w.value]; }
    }
  }

  class RwlockObject {
    var refcount: int
    var nwaitreaders: nat
    var nwaitwriters: nat
    const condreaders: Condition
    const condwriters: Condition
    ghost var s: Lock

    ghost predicate Models()
      reads this, condreaders, condwriters
    {
      && condreaders != condwriters && condreaders.Valid() && condwriters.Valid()
      && s.ref == refcount && s.nreaders == nwaitreaders && s.nwriters == nwaitwriters
      && s.rtokens == condreaders.value && s.wtokens == condwriters.value
      && Suspends(condreaders.waiters, s.rsleep) && Suspends(condwriters.waiters, s.wsleep)
    }

    constructor ()
      ensures Models() && s == Init() && Inv(s) && fresh(condreaders) && fresh(condwriters)
    {
      condreaders := new Condition();
      condwriters := new Condition();
      refcount, nwaitreaders, nwaitwriters := 0, 0, 0;
      s := Init();
      InitOk();
    }

    /** pthread_rwlock_rdlock from the test of its loop on; the answer tells whether it got the lock. */
    method RdlockTest(t: Id) returns (got: bool)
      requires Models()
      modifies this
      ensures Models() && s == ReadTest(old(s), t) && got == MayRead(old(s))
    {
      hide Distinct;
      if refcount < 0 || nwaitwriters > 0 {
        nwaitreaders := nwaitreaders + 1;
        got := false;
      } else {
        refcount := refcount + 1;
        got := true;
      }
      s := ReadTest(s, t);
    }

    /** pthread_rwlock_tryrdlock. */
    method TryRdlock(t: Id) returns (busy: bool)
      requires Models()
      modifies this
      ensures Models() && s == TryRead(old(s), t) && busy == !MayRead(old(s))
    {
      hide Distinct;
      if refcount < 0 || nwaitwriters > 0 { return true; }
      refcount := refcount + 1;
      s := ReadTest(s, t);
      return false;
    }

    /** pthread_rwlock_trywrlock. */
    method TryWrlock(t: Id) returns (busy: bool)
      requires Models()
      modifies this
      ensures Models() && s == TryWrite(old(s), t) && busy == (old(s).ref != 0)
    {
      hide Distinct;
      if refcount != 0 { return true; }
      refcount := -1;
      s := WriteTest(s, t);
      return false;
    }

    /** pthread_rwlock_rdlock after its wait: leave on an error, else test again. */
    method RdlockReturn(t: Id, ok: bool) returns (got: bool)
      requires Models() && Inv(s) && (t in s.rwoken || t in s.rfailed) && ok == (t in s.rwoken)
      modifies this
      ensures Models() && Inv(s) && old(s).nreaders > 0 && s == ReadReturn(old(s), t)
      ensures got == (ok && MayRead(old(s)))
    {
      hide Exclusive, Counted, WritersKnown, ReadTest, Suspends;
      ReadBackOk(s, t);
      nwaitreaders := nwaitreaders - 1;
      s := s.(nreaders := s.nreaders - 1, rwoken := s.rwoken - {t}, rfailed := s.rfailed - {t});
      got := false;
      if ok { got := RdlockTest(t); }
    }

    method WrlockTest(t: Id) returns (got: bool)
      requires Models()
      modifies this
      ensures Models() && s == WriteTest(old(s), t) && got == (old(s).ref == 0)
    {
      hide Distinct;
      if refcount != 0 {
        nwaitwriters := nwaitwriters + 1;
        got := false;
      } else {
        refcount := -1;
        got := true;
      }
      s := WriteTest(s, t);
    }

    method WrlockReturn(t: Id, ok: bool) returns (got: bool)
      requires Models() && Inv(s) && (t in s.wwoken || t in s.wfailed) && ok == (t in s.wwoken)
      modifies this
      ensures Models() && Inv(s) && old(s).nwriters > 0 && s == WriteReturn(old(s), t)
      ensures got == (ok && old(s).ref == 0)
    {
      hide Exclusive, Counted, WritersKnown, WriteTest, Suspends;
      WriteBackOk(s, t);
      nwaitwriters := nwaitwriters - 1;
      s := s.(nwriters := s.nwriters - 1, wwoken := s.wwoken - {t}, wfailed := s.wfailed - {t});
      got := false;
      if ok { got := WrlockTest(t); }
    }

    /** pthread_rwlock_unlock by a holder.  A writer suspended on its condition takes the token at once. */
    method Unlocks(t: Id) returns (woken: Option<Id>, ghost heard: set<Id>)
      requires Models() && Inv(s) && (t in s.readers || s.writer == Some(t))
      modifies this, condreaders, condwriters
      ensures Models() && Inv(s)
      ensures var s1 := Unlock(old(s), t, heard);
              if woken.None? then s == s1
              else Legal(s1, WriteToken(woken.value)) && s == Step(s1, WriteToken(woken.value))
    {
      hide Inv, Suspends, Down, Legal, Broadcast;
      heard := set x | x in condreaders.waiters;
      UnlockOk(s, t, heard);
      DownSame(s, t);
      ghost var s1 := Unlock(s, t, heard);
      woken := None;
      if refcount > 0 {
        refcount := refcount - 1;
      } else if refcount == -1 {
        refcount := 0;
      }
      s := Down(s, t);
      if nwaitwriters > 0 {
        if refcount == 0 { woken := SignalWriters(); }
      } else if nwaitreaders > 0 {
        BroadcastReaders(heard);
      }
      if woken.Some? {
        TokenLegal(s1, woken.value);
        StepOk(s1, WriteToken(woken.value));
      }
    }

    /** pthread_cond_signal for the writers: a suspended one takes the token at once. */
    method SignalWriters() returns (woken: Option<Id>)
      requires Models()
      modifies this`s, condwriters
      ensures Models() && (woken.Some? ==> woken.value in old(s).wsleep)
      ensures var s1 := old(s).(wtokens := old(s).wtokens + 1);
              s == if woken.None? then s1 else Step(s1, WriteToken(woken.value))
    {
      hide Suspends;
      FirstSuspended(condwriters.waiters, s.wsleep);
      woken := condwriters.SemRelease();
      s := s.(wtokens := s.wtokens + 1);
      if woken.Some? { s := Step(s, WriteToken(woken.value)); }
    }

    /** pthread_cond_broadcast for the readers; `heard` are those suspended. */
    method BroadcastReaders(ghost heard: set<Id>)
      requires Models() && heard == set x | x in condreaders.waiters
      modifies this`s, condreaders
      ensures Models() && s == Broadcast(old(s), heard)
    {
      hide Suspends;
      FirstSuspended(condreaders.waiters, s.rsleep);
      assert Suspends([], s.rsleep - heard);
      var _ := condreaders.CondBroadcast();
      s := Broadcast(s, heard);
    }

    /** The wait of a reader for its token: it gets one at once, or is suspended. */
    method ReaderWaits(t: Id) returns (got: bool)
      requires Models() && Inv(s) && t in s.rsleep && t !in condreaders.waiters
      modifies this, condreaders
      ensures Models() && Inv(s) && got == (old(s).rtokens > 0)
      ensures s == if got then Step(old(s), ReadToken(t)) else old(s)
    {
      hide Exclusive, Counted, WritersKnown, Waiting, Suspends;
      Suspended(condreaders.waiters, s.rsleep, t);
      got := condreaders.SemTake(t);
      if got {
        StepOk(s, ReadToken(t));
        s := Step(s, ReadToken(t));
      }
    }

    method WriterWaits(t: Id) returns (got: bool)
      requires Models() && Inv(s) && t in s.wsleep && t !in condwriters.waiters
      modifies this, condwriters
      ensures Models() && Inv(s) && got == (old(s).wtokens > 0)
      ensures s == if got then Step(old(s), WriteToken(t)) else old(s)
    {
      hide Exclusive, Counted, WritersKnown, Waiting, Suspends;
      Suspended(condwriters.waiters, s.wsleep, t);
      got := condwriters.SemTake(t);
      if got {
        StepOk(s, WriteToken(t));
        s := Step(s, WriteToken(t));
      }
    }

    /** The timed wait of a suspended writer is over. */
    method WriterTimesOut(t: Id)
      requires Models() && Inv(s) && t in condwriters.waiters
      modifies this, condwriters
      ensures Models() && Inv(s) && t in old(s).wsleep && s == Step(old(s), WriteExpire(t))
    {
      hide Exclusive, Counted, WritersKnown, Waiting, Suspends, L.Del;
      Suspended(condwriters.waiters, s.wsleep, t);
      StepOk(s, WriteExpire(t));
      condwriters.TimedOut(t);
      s := Step(s, WriteExpire(t));
    }

    method ReaderTimesOut(t: Id)
      requires Models() && Inv(s) && t in condreaders.waiters
      modifies this, condreaders
      ensures Models() && Inv(s) && t in old(s).rsleep && s == Step(old(s), ReadExpire(t))
    {
      hide Exclusive, Counted, WritersKnown, Waiting, Suspends, L.Del;
      Suspended(condreaders.waiters, s.rsleep, t);
      StepOk(s, ReadExpire(t));
      condreaders.TimedOut(t);
      s := Step(s, ReadExpire(t));
    }
  }

  /** The threads suspended on a semaphore are among those that sleep. */
  ghost predicate Suspends(waiters: seq<Id>, sleep: set<Id>) {
    Distinct(waiters) && forall t | t in waiters :: t in sleep
  }

  lemma {:induction false} DownSame(s: Lock, t: Id)
    ensures var s' := Down(s, t);
            && s' == s.(ref := s'.ref, readers := s'.readers, writer := s'.writer)
            && s'.ref == if s.ref > 0 then s.ref - 1 else if s.ref == -1 then 0 else s.ref
  {
  }

  lemma {:induction false} TokenLegal(s: Lock, t: Id)
    requires t in s.wsleep && s.wtokens > 0
    ensures Legal(s, WriteToken(t))
  {
  }

  lemma {:induction false} FirstSuspended(waiters: seq<Id>, sleep: set<Id>)
    requires Suspends(waiters, sleep)
    ensures waiters != [] ==> waiters[0] in sleep && Suspends(waiters[1..], sleep - {waiters[0]})
    ensures forall rest :: Suspends([], rest)
  {
  }

  lemma {:induction false} Suspended(waiters: seq<Id>, sleep: set<Id>, t: Id)
    requires Suspends(waiters, sleep)
    ensures t !in waiters ==> Suspends(waiters, sleep - {t})
    ensures t in sleep && t !in waiters ==> Suspends(waiters + [t], sleep)
    ensures Suspends(L.Del(waiters, t), sleep - {t}) && (t in waiters ==> t in sleep)
  {
    hide L.Del;
    L.DelMember(waiters, t);
    L.DelIsSub(waiters, t);
    L.SubDistinct(L.Del(waiters, t), waiters);
  }
}
