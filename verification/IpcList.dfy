/** The suspended-thread lists of src/ipc.c. */
module IpcList {
  import opened Seqs
  import opened SortedList

  datatype Flag = Fifo | Prio

  /** rt_ipc_list_suspend: at the end, or before the first thread of lower priority.  A smaller number is
      a higher priority. */
  function Queued(list: seq<Id>, thread: Id, prio: map<Id, int>, flag: Flag): seq<Id> {
    if flag == Fifo then list + [thread] else Ins(list, thread, prio)
  }

  method Suspend(list: seq<Id>, thread: Id, prio: map<Id, int>, flag: Flag) returns (r: seq<Id>)
    ensures r == Queued(list, thread, prio, flag)
  {
    hide Ins;
    if flag == Fifo { return list + [thread]; }
    var n := 0;
    while n < |list|
      invariant n <= |list| && forall j | 0 <= j < n :: Key(prio, list[j]) <= Key(prio, thread)
    {
      if Key(prio, thread) < Key(prio, list[n]) {
        InsAt(list, thread, prio, n);
        return list[..n] + [thread] + list[n..];
      }
      n := n + 1;
    }
    InsAt(list, thread, prio, n);
    return list[..n] + [thread] + list[n..];
  }

  lemma {:induction false} QueuedOk(list: seq<Id>, t: Id, prio: map<Id, int>, flag: Flag)
    requires Distinct(list) && t !in list
    ensures Distinct(Queued(list, t, prio, flag))
            && forall u :: u in Queued(list, t, prio, flag) <==> u in list || u == t
  {
    hide Ins;
    InsMember(list, t, prio);
    if flag == Prio { InsDistinct(list, t, prio); }
  }

  /** Where the thread comes to stand: behind everyone in a FIFO list; in a PRIO list that is in order, behind
      all of its or a higher priority and before all of a lower one.  The others keep their order. */
  lemma {:induction false} QueuedPlace(list: seq<Id>, t: Id, prio: map<Id, int>, flag: Flag) returns (p: nat)
    requires flag == Prio ==> Sorted(list, prio)
    ensures p <= |list| && Queued(list, t, prio, flag) == list[..p] + [t] + list[p..]
    ensures flag == Fifo ==> p == |list|
    ensures flag == Prio ==> forall j | 0 <= j < |list| :: j < p <==> Key(prio, list[j]) <= Key(prio, t)
  {
    hide Ins;
    if flag == Fifo {
      p := |list|;
      assert list[..p] + [t] + list[p..] == list + [t];
    } else {
      p := 0;
      while p < |list| && Key(prio, list[p]) <= Key(prio, t)
        invariant p <= |list| && forall j | 0 <= j < p :: Key(prio, list[j]) <= Key(prio, t)
      {
        p := p + 1;
      }
      InsAt(list, t, prio, p);
    }
  }

  /** Behind position `i` nothing changes for those up to it, when the newcomer is no more urgent. */
  lemma {:induction false} QueuedBehind(list: seq<Id>, t: Id, prio: map<Id, int>, flag: Flag, i: nat)
    requires i < |list| && (flag == Prio ==> Sorted(list, prio) && Key(prio, list[i]) <= Key(prio, t))
    ensures var r := Queued(list, t, prio, flag); |r| == |list| + 1 && r[..i + 1] == list[..i + 1]
  {
    hide Ins, Sorted;
    var p := QueuedPlace(list, t, prio, flag);
    assert p > i;
    assert (list[..p] + [t] + list[p..])[..i + 1] == list[..i + 1];
  }
}
