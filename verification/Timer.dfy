/** src/timer.c and the tick of src/clock.c on 32-bit ticks.  The ghost field `sys` is the same system in
    unbounded time; every method keeps the two in step. */
module Timer {
  import opened SortedList
  import opened TimerRows
  import opened TimerSpec

  const TICK_MAX := 0xffff_ffff

  datatype Timer = Timer(timeout: nat, init: nat, active: bool, periodic: bool)

  /** The unsigned 32-bit difference. */
  function Minus(a: nat, b: nat): nat { (a - b) % WORD }

  /** Comparing wrapped ticks agrees with comparing the instants, as long as they are less than half
      the tick range apart. */
  lemma {:induction false} WrapOrder(a: int, b: int)
    requires -HALF <= a - b < HALF
    ensures Minus(a % WORD, b % WORD) == 0 <==> a == b
    ensures 0 < Minus(a % WORD, b % WORD) < HALF <==> a > b
  {
    assert (a % WORD - b % WORD) % WORD == (a - b) % WORD;
    if a < b { assert (a - b) % WORD == a - b + WORD; } else { assert (a - b) % WORD == a - b; }
  }

  function IndexOf(row: seq<Id>, y: Id): (i: nat)
    requires y in row
    ensures i < |row| && row[i] == y
  {
    if row[0] == y then 0 else 1 + IndexOf(row[1..], y)
  }

  /** The wrapped state stands for the unbounded one. */
  ghost predicate Rep(mask: nat, rows: seq<seq<Id>>, timers: map<Id, Timer>, nr: nat, tick: nat, s: Sys) {
    && rows == s.rows && nr == s.nr && mask == s.mask && tick == s.now % WORD && timers.Keys == s.ctl.Keys
    && forall x | x in timers ::
         && Ctl(timers[x].init, timers[x].active, timers[x].periodic) == s.ctl[x]
         && timers[x].timeout == Key(s.due, x) % WORD
  }

  /** The first `p` entries of a row are due no later than `x`. */
  ghost predicate Upto(row: seq<Id>, p: nat, x: Id, due: map<Id, int>) {
    p <= |row| && forall j | 0 <= j < p :: Key(due, row[j]) <= Key(due, x)
  }

  /** Linking `x` after position `p` of the row is the sorted insert. */
  ghost predicate Fits(row: seq<Id>, p: nat, x: Id, due: map<Id, int>) {
    p <= |row| && Ins(row, x, due) == row[..p] + [x] + row[p..]
  }

  ghost predicate AllFit(rows: seq<seq<Id>>, heads: seq<nat>, x: Id, due: map<Id, int>) {
    |heads| <= |rows| && forall i | 0 <= i < |heads| :: Fits(rows[i], heads[i], x, due)
  }

  /** The deadlines of a row are near enough to be compared. */
  ghost predicate Near(row: seq<Id>, timers: map<Id, Timer>, s: Sys) {
    forall y | y in row :: y in timers && s.now - 1 <= Key(s.due, y) < s.now + HALF
  }

  class Timers {
    const mask: nat
    var rows: seq<seq<Id>>
    var timers: map<Id, Timer>
    var nr: nat
    var tick: nat
    ghost var sys: Sys

    ghost predicate Models()
      reads this
    {
      Rep(mask, rows, timers, nr, tick, sys)
    }

    ghost predicate Ok(own: set<Id>)
      reads this
    {
      Models() && |sys.rows| >= 1 && Inv(sys, sys.now - 1, own)
    }

    constructor (levels: nat, mask: nat, tick: nat, timers: map<Id, Timer>)
      requires levels >= 1 && mask in {1, 3} && tick < WORD
      requires forall x | x in timers :: !timers[x].active && timers[x].timeout == 0
      ensures Models() && Good(sys) && sys.now == tick && Dense(rows) == [] && this.timers == timers
    {
      this.mask, this.tick, this.timers, nr := mask, tick, timers, 0;
      rows := seq(levels, _ => []);
      sys := Sys(mask, seq(levels, _ => []), map[],
                 map x | x in timers :: Ctl(timers[x].init, false, timers[x].periodic), 0, tick, []);
    }

    /** The inner loop of rt_timer_start: walk one row from `from` to the place of timer `x`. */
    method Walk(row: seq<Id>, from: nat, x: Id) returns (p: nat)
      requires Models() && x in timers && Near(row, timers, sys) && Upto(row, from, x, sys.due)
      requires sys.now <= Key(sys.due, x) < sys.now + HALF
      ensures Upto(row, p, x, sys.due) && Fits(row, p, x, sys.due)
    {
      hide Ins;
      p := from;
      while p != |row|
        invariant Upto(row, p, x, sys.due)
      {
        var d := Minus(timers[row[p]].timeout, timers[x].timeout);
        WrapOrder(Key(sys.due, row[p]), Key(sys.due, x));
        if d != 0 && d < HALF { break; }
        p := p + 1;
      }
      InsAt(row, x, sys.due, p);
    }

    /** The row_head array: the place of the new timer in every row, each search starting in the next row
        where the last one ended. */
    method Places(x: Id) returns (heads: seq<nat>)
      requires Models() && Nested(rows, sys.due) && x in timers && Near(Dense(rows), timers, sys)
      requires sys.now <= Key(sys.due, x) < sys.now + HALF
      ensures |heads| == |rows| && AllFit(rows, heads, x, sys.due)
    {
      hide Nested, Rep, Upto, Fits, Near;
      heads := [];
      var p: nat, lvl := 0, 0;
      if rows != [] { UptoNone(rows[0], x, sys.due); }
      while lvl < |rows|
        invariant lvl <= |rows| && |heads| == lvl && AllFit(rows, heads, x, sys.due)
        invariant lvl < |rows| ==> Upto(rows[lvl], p, x, sys.due)
      {
        NearRow(rows, lvl, timers, sys);
        p := Walk(rows[lvl], p, x);
        heads := heads + [p];
        if lvl != |rows| - 1 {
          Down(rows, lvl, p, x, sys.due);
          p := if p == 0 then 0 else IndexOf(rows[lvl + 1], rows[lvl][p - 1]) + 1;
        }
        lvl := lvl + 1;
      }
    }

    /** rt_timer_start: fails on an active timer. */
    method Start(x: Id, ghost own: set<Id>) returns (ok: bool)
      requires Ok(own) && x in timers && LegalCmd(sys, Cmd.Start(x), 0) && (x in own ==> timers[x].active)
      modifies this
      ensures ok == !old(timers[x].active) && Ok(own) && sys == Apply(old(sys), Cmd.Start(x))
      ensures timers.Keys == old(timers.Keys)
    {
      hide Nested, InsRows, Height, Inv, Rep, AllFit, Near, Waits, Arm;
      ghost var s0 := sys;
      RepCtl(mask, rows, timers, nr, tick, s0, x);
      ApplySound(s0, Cmd.Start(x), s0.now - 1, 0, own);
      if timers[x].active {
        ok := false;
        return;
      }
      ghost var d := s0.now + s0.ctl[x].init;
      RepDue(mask, rows, timers, nr, tick, s0, x, own);
      timers := timers[x := timers[x].(timeout := (tick + timers[x].init) % WORD)];
      sys := s0.(due := s0.due[x := d]);
      var heads := Places(x);
      nr := (nr + 1) % WORD;
      Link(x, heads, sys.due);
      RepArm(mask, old(rows), timers, old(nr), tick, s0, x);
      timers := timers[x := timers[x].(active := true)];
      sys := Arm(s0, x);
      ok := true;
    }

    /** The insertion loop: the densest row always, sparser rows while the counter's bits allow. */
    method Link(x: Id, heads: seq<nat>, ghost due: map<Id, int>)
      requires |rows| >= 1 && |heads| == |rows| && AllFit(rows, heads, x, due)
      modifies this`rows
      ensures rows == InsRows(old(rows), x, due, 1 + Height(mask, nr, |old(rows)| - 1))
    {
      hide Ins;
      var n, tst: nat := |rows|, nr;
      assert Fits(rows[n - 1], heads[n - 1], x, due);
      rows := rows[n - 1 := rows[n - 1][..heads[n - 1]] + [x] + rows[n - 1][heads[n - 1]..]];
      var lvl := 2;
      while lvl <= n
        invariant 2 <= lvl <= n + 1 && rows == InsRows(old(rows), x, due, lvl - 1)
        invariant Height(mask, nr, n - 1) == lvl - 2 + Height(mask, tst, n + 1 - lvl)
      {
        if tst % (mask + 1) != 0 { break; }
        var i := n - lvl;
        assert rows[i] == old(rows)[i] && Fits(rows[i], heads[i], x, due);
        rows := rows[i := rows[i][..heads[i]] + [x] + rows[i][heads[i]..]];
        tst := tst / (mask + 1);
        lvl := lvl + 1;
      }
    }

    /** _rt_timer_remove. */
    method Unlink(x: Id)
      modifies this`rows
      ensures rows == DelRows(old(rows), x)
    {
      var i := 0;
      while i < |rows|
        invariant i <= |rows| == |old(rows)|
        invariant forall j | 0 <= j < i :: rows[j] == Del(old(rows)[j], x)
        invariant forall j | i <= j < |rows| :: rows[j] == old(rows)[j]
      {
        rows := rows[i := Del(rows[i], x)];
        i := i + 1;
      }
    }

    /** rt_timer_stop: fails on an inactive timer. */
    method Stop(x: Id, ghost own: set<Id>) returns (ok: bool)
      requires Ok(own) && x in timers
      modifies this
      ensures ok == old(timers[x].active) && Ok(own) && sys == Apply(old(sys), Cmd.Stop(x))
      ensures timers.Keys == old(timers.Keys)
    {
      hide Inv, Rep, DelRows, Waits, Sub, Expired;
      RepCtl(mask, rows, timers, nr, tick, sys, x);
      if !timers[x].active {
        ok := false;
        return;
      }
      ApplySound(sys, Cmd.Stop(x), sys.now - 1, 1, own);
      RepStop(mask, rows, timers, nr, tick, sys, x);
      Unlink(x);
      timers := timers[x := timers[x].(active := false)];
      sys := Apply(sys, Cmd.Stop(x));
      ok := true;
    }

    /** One call made by a callback. */
    method Perform(c: Cmd, ghost own: set<Id>)
      requires Ok(own) && LegalCmd(sys, c, 0) && (c.Start? && c.x in own ==> c.x in timers && timers[c.x].active)
      modifies this
      ensures Ok(own) && sys == Apply(old(sys), c)
    {
      hide Inv, Rep, Arm, DelRows, Waits;
      RepSet(mask, rows, timers, nr, tick, sys, c);
      if c.x in timers { RepCtl(mask, rows, timers, nr, tick, sys, c.x); }
      ApplySound(sys, c, sys.now - 1, 0, own);
      if c.x in timers {
        match c {
          case Start(x) => var _ := Start(x, own);
          case Stop(x) => var _ := Stop(x, own);
          case SetTime(x, n) =>
            timers := timers[x := timers[x].(init := n)];
            sys := Apply(sys, c);
          case SetPeriodic(x, on) =>
            timers := timers[x := timers[x].(periodic := on)];
            sys := Apply(sys, c);
        }
      }
    }

    /** The callback of expired timer `t`. */
    method Call(cs: seq<Cmd>, ghost t: Id) returns (ghost o: Own)
      requires Models() && |sys.rows| >= 1 && OwnIs(sys, t, Out) && LegalCmds(sys, cs)
      modifies this
      ensures Models() && o == OwnAfter(cs, t, Out) && OwnIs(sys, t, o) && sys == ApplyAll(old(sys), cs)
    {
      hide Inv, Rep, Apply, OwnIs, Waits, Sub, Expired;
      var i := 0;
      o := Out;
      assert cs[0..] == cs;
      while i < |cs|
        invariant i <= |cs| && Models() && |sys.rows| >= 1 && OwnIs(sys, t, o) && LegalCmds(sys, cs[i..])
        invariant ApplyAll(sys, cs[i..]) == ApplyAll(old(sys), cs)
        invariant OwnAfter(cs[i..], t, o) == OwnAfter(cs, t, Out)
      {
        assert cs[i..][0] == cs[i] && cs[i..][1..] == cs[i + 1..];
        LessLegal(sys, cs[i]);
        OwnStep(sys, cs[i], t, o);
        OwnOk(mask, rows, timers, nr, tick, sys, t, o);
        Perform(cs[i], OwnSet(t, o));
        o := OwnNext(cs[i], t, o);
        i := i + 1;
      }
    }

    /** rt_timer_check. */
    method CheckTimers(cb: Callback)
      requires Ok({}) && LegalCheck(sys, cb, |Expired(sys)|)
      modifies this
      ensures Ok({}) && sys == Check(old(sys), cb, |old(Expired(sys))|)
    {
      hide Inv, Rep, Fire, LegalFire, Expired, Sub, Waits;
      ghost var s0, n := sys, |Expired(sys)|;
      while Dense(rows) != []
        invariant Ok({}) && |Expired(sys)| <= n && LegalCheck(sys, cb, n)
        invariant Check(sys, cb, n) == Check(s0, cb, |Expired(s0)|)
        decreases n
      {
        var t := Dense(rows)[0];
        HeadExpired(mask, rows, timers, nr, tick, sys);
        if Minus(tick, timers[t].timeout) >= HALF { break; }
        FireSound(sys, cb);
        SubLength(Expired(Fire(sys, cb)), Expired(sys)[1..]);
        Expire(t, cb);
        n := n - 1;
      }
      HeadNone(mask, rows, timers, nr, tick, sys);
    }

    /** One turn of the loop: unlink, call, and arm a periodic timer that is still active again. */
    method Expire(t: Id, cb: Callback)
      requires Ok({}) && Expired(sys) != [] && Dense(sys.rows) != [] && t == Dense(sys.rows)[0] && LegalFire(sys, cb)
      modifies this
      ensures Ok({}) && sys == Fire(old(sys), cb)
    {
      hide Inv, Nested, DelRows, LegalCmd, LegalCmds, Apply, ApplyAll, Sub, Del, Waits, Rep, Expired, Arm, OwnIs,
           OwnAfter;
      ghost var s0 := sys;
      UnlinkSound(s0);
      RepUnlink(mask, rows, timers, nr, tick, s0, t);
      Unlink(t);
      sys := TimerSpec.Unlink(s0, t);
      ghost var o := Call(cb(t), t);
      ghost var s2 := sys;
      OwnKnown(s2, t, o);
      RepCtl(mask, rows, timers, nr, tick, s2, t);
      var again := timers[t].periodic && timers[t].active;
      RepClear(mask, rows, timers, nr, tick, s2, t);
      timers := timers[t := timers[t].(active := false)];
      sys := s2.(ctl := s2.ctl[t := s2.ctl[t].(active := false)]);
      Released(s2, t, o);
      if again {
        StartIsArm(sys, t);
        var _ := Start(t, {});
      }
    }

    /** rt_tick_increase. */
    method TickIncrease(cb: Callback)
      requires Models() && Good(sys) && Legal(sys, Ticked(cb))
      modifies this
      ensures Models() && Good(sys) && sys == Tick(old(sys), cb)
    {
      hide Nested, LegalCheck, Check, Expired, CheckResult;
      StepSound(sys, Ticked(cb));
      tick := (tick + 1) % WORD;
      sys := sys.(now := sys.now + 1);
      CheckTimers(cb);
    }

    /** rt_timer_next_timeout_tick: the wrapped earliest deadline. */
    method NextTimeout() returns (t: nat)
      requires Models() && Good(sys)
      ensures Dense(rows) == [] ==> t == TICK_MAX
      ensures Dense(rows) != [] ==>
                exists x :: x in Dense(rows) && x in sys.due && t == sys.due[x] % WORD &&
                            forall y | y in Dense(rows) :: sys.due[x] <= Key(sys.due, y)
    {
      hide Sub;
      if Dense(rows) == [] { return TICK_MAX; }
      NestedRows(rows, sys.due);
      var x := Dense(rows)[0];
      assert x in Dense(rows);
      t := timers[x].timeout;
    }
  }

  lemma {:induction false} LessLegal(s: Sys, c: Cmd)
    requires LegalCmd(s, c, 1)
    ensures LegalCmd(s, c, 0)
  {
  }

  /** The wrapped state in the midst of a callback. */
  lemma {:induction false} OwnOk(mask: nat, rows: seq<seq<Id>>, timers: map<Id, Timer>, nr: nat, tick: nat, s: Sys,
          t: Id, o: Own)
    requires Rep(mask, rows, timers, nr, tick, s) && OwnIs(s, t, o)
    ensures Inv(s, s.now - 1, OwnSet(t, o)) && t in timers && (o == Out ==> timers[t].active)
  {
  }

  /** The wrapped test of the loop finds out whether a timer is expired. */
  lemma {:induction false} HeadExpired(mask: nat, rows: seq<seq<Id>>, timers: map<Id, Timer>, nr: nat, tick: nat,
          s: Sys)
    requires Rep(mask, rows, timers, nr, tick, s) && Inv(s, s.now - 1, {}) && Dense(rows) != []
    ensures Dense(s.rows) == Dense(rows) && Dense(rows)[0] in timers
    ensures Minus(tick, timers[Dense(rows)[0]].timeout) < HALF <==> Expired(s) != []
  {
    hide Nested;
    var t := Dense(rows)[0];
    assert t in Dense(s.rows);
    WrapOrder(s.now, s.due[t]);
  }

  lemma {:induction false} HeadNone(mask: nat, rows: seq<seq<Id>>, timers: map<Id, Timer>, nr: nat, tick: nat, s: Sys)
    requires Rep(mask, rows, timers, nr, tick, s)
    ensures Dense(rows) == [] ==> Expired(s) == []
  {
  }

  lemma {:induction false} Released(s: Sys, t: Id, o: Own)
    requires OwnIs(s, t, o) && o != Linked
    ensures var s' := s.(ctl := s.ctl[t := s.ctl[t].(active := false)]); Inv(s', s.now - 1, {})
  {
  }

  lemma {:induction false} StartIsArm(s: Sys, t: Id)
    requires |s.rows| >= 1 && t in s.ctl && !s.ctl[t].active
    ensures Apply(s, Cmd.Start(t)) == Arm(s, t)
    ensures s.ctl[t].init < HALF ==> LegalCmd(s, Cmd.Start(t), 0)
  {
  }

  // ---- the representation, step by step ----

  lemma {:induction false} RepCtl(mask: nat, rows: seq<seq<Id>>, timers: map<Id, Timer>, nr: nat, tick: nat, s: Sys,
          x: Id)
    requires Rep(mask, rows, timers, nr, tick, s) && (x in timers || x in s.ctl)
    ensures rows == s.rows && x in timers && x in s.ctl
            && Ctl(timers[x].init, timers[x].active, timers[x].periodic) == s.ctl[x]
  {
  }

  lemma {:induction false} RepSet(mask: nat, rows: seq<seq<Id>>, timers: map<Id, Timer>, nr: nat, tick: nat, s: Sys,
          c: Cmd)
    requires Rep(mask, rows, timers, nr, tick, s) && |s.rows| >= 1
    ensures c.x in timers <==> c.x in s.ctl
    ensures c.x in timers && c.SetTime? ==>
            Rep(mask, rows, timers[c.x := timers[c.x].(init := c.n)], nr, tick, Apply(s, c))
    ensures c.x in timers && c.SetPeriodic? ==>
            Rep(mask, rows, timers[c.x := timers[c.x].(periodic := c.on)], nr, tick, Apply(s, c))
  {
  }

  lemma {:induction false} RepUnlink(mask: nat, rows: seq<seq<Id>>, timers: map<Id, Timer>, nr: nat, tick: nat, s: Sys,
          t: Id)
    requires Rep(mask, rows, timers, nr, tick, s)
    ensures Rep(mask, DelRows(rows, t), timers, nr, tick, Unlink(s, t))
  {
  }

  lemma {:induction false} RepStop(mask: nat, rows: seq<seq<Id>>, timers: map<Id, Timer>, nr: nat, tick: nat, s: Sys,
          x: Id)
    requires Rep(mask, rows, timers, nr, tick, s) && x in timers && timers[x].active && |s.rows| >= 1
    ensures Rep(mask, DelRows(rows, x), timers[x := timers[x].(active := false)], nr, tick, Apply(s, Cmd.Stop(x)))
  {
    hide DelRows;
  }

  lemma {:induction false} RepClear(mask: nat, rows: seq<seq<Id>>, timers: map<Id, Timer>, nr: nat, tick: nat, s: Sys,
          t: Id)
    requires Rep(mask, rows, timers, nr, tick, s) && t in timers && t in s.ctl
    ensures Rep(mask, rows, timers[t := timers[t].(active := false)], nr, tick,
            s.(ctl := s.ctl[t := s.ctl[t].(active := false)]))
  {
  }

  /** Giving an idle timer its deadline. */
  lemma {:induction false} RepDue(mask: nat, rows: seq<seq<Id>>, timers: map<Id, Timer>, nr: nat, tick: nat, s: Sys,
          x: Id, own: set<Id>)
    requires Rep(mask, rows, timers, nr, tick, s) && x in timers && Inv(s, s.now - 1, own)
    requires x in s.ctl && !s.ctl[x].active && s.ctl[x].init < HALF
    ensures var timers' := timers[x := timers[x].(timeout := (tick + timers[x].init) % WORD)];
            var s' := s.(due := s.due[x := s.now + s.ctl[x].init]);
            Rep(mask, rows, timers', nr, tick, s') && Nested(rows, s'.due) && Near(Dense(rows), timers', s')
  {
    hide Nested;
    var d := s.now + s.ctl[x].init;
    assert (s.now % WORD + s.ctl[x].init) % WORD == d % WORD;
    NestedFrame(s.rows, s.due, x, d);
  }

  lemma {:induction false} RepArm(mask: nat, rows: seq<seq<Id>>, timers: map<Id, Timer>, nr: nat, tick: nat, s: Sys,
          x: Id)
    requires x in timers && x in s.ctl && |s.rows| >= 1
    requires Rep(mask, rows, timers, nr, tick, s.(due := s.due[x := s.now + s.ctl[x].init]))
    ensures var s' := Arm(s, x);
            s'.due == s.due[x := s.now + s.ctl[x].init] && |s'.rows| == |s.rows| &&
            Rep(mask, InsRows(rows, x, s'.due, 1 + Height(mask, (nr + 1) % WORD, |rows| - 1)),
                timers[x := timers[x].(active := true)], (nr + 1) % WORD, tick, s')
  {
    hide InsRows, Height;
  }

  lemma {:induction false} UptoNone(row: seq<Id>, x: Id, due: map<Id, int>)
    ensures Upto(row, 0, x, due)
  {
  }

  lemma {:induction false} NearRow(rows: seq<seq<Id>>, i: nat, timers: map<Id, Timer>, s: Sys)
    requires Nested(rows, s.due) && i < |rows| && Near(Dense(rows), timers, s)
    ensures Near(rows[i], timers, s)
  {
    hide Nested;
    forall y | y in rows[i] ensures y in Dense(rows) { NestedMember(rows, s.due, i, y); }
  }

  /** The next denser row, from behind the same timer on. */
  lemma {:induction false} Down(rows: seq<seq<Id>>, i: nat, p: nat, x: Id, due: map<Id, int>)
    requires Nested(rows, due) && i + 1 < |rows| && Upto(rows[i], p, x, due)
    ensures p > 0 ==> p <= |rows[i]| && rows[i][p - 1] in rows[i + 1]
                      && Upto(rows[i + 1], IndexOf(rows[i + 1], rows[i][p - 1]) + 1, x, due)
    ensures Upto(rows[i + 1], 0, x, due)
  {
    hide Sub;
    if p > 0 {
      var (a, b) := (rows[i], rows[i + 1]);
      assert Sub(a, rows[i + 1]) by { assert i + 1 > 0; assert Sub(rows[i + 1 - 1], rows[i + 1]); }
      SubMember(a, b, a[p - 1]);
      assert Sorted(b, due);
    }
  }
}
