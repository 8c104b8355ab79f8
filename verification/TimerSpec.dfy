/** Timers in unbounded time: start, stop, control, and the expiry check of a tick. */
module TimerSpec {
  import opened Seqs
  import opened SortedList
  import opened TimerRows
  import B = Bits

  // The callbacks of a check may start and stop timers.  `log` records every expiry with the tick it
  // happened at.

  const WORD := 0x1_0000_0000
  const HALF := 0x7fff_ffff

  datatype Ctl = Ctl(init: nat, active: bool, periodic: bool)

  datatype Sys = Sys(mask: nat, rows: seq<seq<Id>>, due: map<Id, int>, ctl: map<Id, Ctl>,
                     nr: nat, now: nat, log: seq<(Id, nat)>)

  datatype Cmd = Start(x: Id) | Stop(x: Id) | SetTime(x: Id, n: nat) | SetPeriodic(x: Id, on: bool)

  /** What each timer's callback does when the timer expires. */
  type Callback = Id -> seq<Cmd>

  /** Rows above the densest that a new timer also enters: the counter is read `mask` bits at a time. */
  function Height(mask: nat, nr: nat, room: nat): nat
    decreases room
  {
    if room == 0 || nr % (mask + 1) != 0 then 0 else 1 + Height(mask, nr / (mask + 1), room - 1)
  }

  function Power(b: nat, k: nat): (p: nat)
    requires b > 0
    ensures p > 0
  {
    if k == 0 then 1 else b * Power(b, k - 1)
  }

  /** A timer enters the k-th row above the densest exactly when the counter is a multiple of the k-th power:
      each row has a (mask + 1)-th of the one below it. */
  lemma {:induction false} HeightIs(mask: nat, nr: nat, room: nat, k: nat)
    ensures k <= Height(mask, nr, room) <==> k <= room && nr % Power(mask + 1, k) == 0
    decreases room
  {
    var b := mask + 1;
    if k == 0 {
      assert nr % 1 == 0;
    } else if room > 0 {
      var p := Power(b, k - 1);
      HeightIs(mask, nr / b, room - 1, k - 1);
      MultipleOf(nr, b, p);
    }
  }

  lemma {:induction false} MultipleOf(n: nat, b: nat, p: nat)
    requires b > 0 && p > 0
    ensures n % (b * p) == 0 <==> n % b == 0 && n / b % p == 0
  {
    Split(n, b);
    Split(n / b, p);
    NestedRest(b, p, n / b / p, n / b % p, n / b, n % b, n);
  }

  lemma {:induction false} Split(n: nat, b: nat)
    requires b > 0
    ensures n == b * (n / b) + n % b && n % b < b
  {
  }

  lemma {:induction false} NestedRest(b: nat, p: nat, q: nat, r: nat, m: nat, s: nat, n: nat)
    requires b > 0 && p > 0 && m == p * q + r && r < p && n == b * m + s && s < b
    ensures n % (b * p) == 0 <==> s == 0 && r == 0
  {
    assert b * (p * q + r) == b * (p * q) + b * r;
    assert b * (p * q) == (b * p) * q;
    Rest(b, p, r, s);
    B.Divided(n, b * p, q, b * r + s);
  }

  lemma {:induction false} Rest(b: nat, p: nat, r: nat, s: nat)
    requires r < p && s < b
    ensures b * r + s < b * p && (b * r + s == 0 <==> r == 0 && s == 0)
  {
    B.Grows(b, r + 1, p);
    assert b * (r + 1) == b * r + b;
    if r > 0 { B.Grows(b, 1, r); }
  }

  function Arm(s: Sys, x: Id): Sys
    requires x in s.ctl && |s.rows| >= 1
  {
    var due := s.due[x := s.now + s.ctl[x].init];
    var nr := (s.nr + 1) % WORD;
    s.(due := due, nr := nr, rows := InsRows(s.rows, x, due, 1 + Height(s.mask, nr, |s.rows| - 1)),
       ctl := s.ctl[x := s.ctl[x].(active := true)])
  }

  /** Commands on a timer that does not exist do nothing; starting an active or stopping an inactive
      timer fails and changes nothing. */
  function Apply(s: Sys, c: Cmd): (r: Sys)
    requires |s.rows| >= 1
    ensures |r.rows| == |s.rows|
  {
    if c.x !in s.ctl then s
    else
      var k := s.ctl[c.x];
      match c
      case Start(x) => if k.active then s else Arm(s, x)
      case Stop(x) => if k.active then s.(rows := DelRows(s.rows, x), ctl := s.ctl[x := k.(active := false)]) else s
      case SetTime(x, n) => s.(ctl := s.ctl[x := k.(init := n)])
      case SetPeriodic(x, on) => s.(ctl := s.ctl[x := k.(periodic := on)])
  }

  function ApplyAll(s: Sys, cs: seq<Cmd>): (r: Sys)
    requires |s.rows| >= 1
    ensures |r.rows| >= 1
    decreases |cs|
  {
    if cs == [] then s else ApplyAll(Apply(s, cs[0]), cs[1..])
  }

  function Exp(row: seq<Id>, due: map<Id, int>, now: int): seq<Id> {
    if row == [] || Key(due, row[0]) > now then [] else [row[0]] + Exp(row[1..], due, now)
  }

  /** The timers whose deadline has come, in the order of the densest row. */
  function Expired(s: Sys): seq<Id> { Exp(Dense(s.rows), s.due, s.now) }

  function Unlink(s: Sys, t: Id): Sys { s.(rows := DelRows(s.rows, t), log := s.log + [(t, s.now)]) }

  /** After the callback: a periodic timer that is still active is armed again. */
  function Settle(s: Sys, t: Id): Sys
    requires |s.rows| >= 1
  {
    if t !in s.ctl then s
    else
      var k := s.ctl[t];
      var s' := s.(ctl := s.ctl[t := k.(active := false)]);
      if k.periodic && k.active then Arm(s', t) else s'
  }

  function Fire(s: Sys, cb: Callback): (r: Sys)
    requires |s.rows| >= 1 && Dense(s.rows) != []
    ensures |r.rows| >= 1
  {
    var t := Dense(s.rows)[0];
    Settle(ApplyAll(Unlink(s, t), cb(t)), t)
  }

  /** rt_timer_check, at most `n` expiries. */
  function Check(s: Sys, cb: Callback, n: nat): (r: Sys)
    requires |s.rows| >= 1
    ensures |r.rows| >= 1
    decreases n
  {
    if n == 0 || Expired(s) == [] then s else Check(Fire(s, cb), cb, n - 1)
  }

  function Tick(s: Sys, cb: Callback): (r: Sys)
    requires |s.rows| >= 1
    ensures |r.rows| >= 1
  {
    var s1 := s.(now := s.now + 1);
    Check(s1, cb, |Expired(s1)|)
  }

  // ---- what callers must respect ----

  /** rt_timer_start asserts that the period is below half the tick range; a callback must respect a
      period of at least `least` besides. */
  ghost predicate LegalCmd(s: Sys, c: Cmd, least: nat) {
    c.Start? && c.x in s.ctl && !s.ctl[c.x].active ==> least <= s.ctl[c.x].init < HALF
  }

  ghost predicate LegalCmds(s: Sys, cs: seq<Cmd>)
    requires |s.rows| >= 1
    decreases |cs|
  {
    cs == [] || (LegalCmd(s, cs[0], 1) && LegalCmds(Apply(s, cs[0]), cs[1..]))
  }

  /** A timer during its own callback: still active but out of the rows, stopped, or started again. */
  datatype Own = Out | Idle | Linked

  function OwnNext(c: Cmd, t: Id, o: Own): Own {
    if c == Stop(t) then Idle else if c == Start(t) && o == Idle then Linked else o
  }

  /** Where the callback leaves its own timer. */
  function OwnAfter(cs: seq<Cmd>, t: Id, o: Own): Own
    decreases |cs|
  {
    if cs == [] then o else OwnAfter(cs[1..], t, OwnNext(cs[0], t, o))
  }

  /** The periods of an expiry: at least 1 for the timers the callback starts, and for a periodic timer
      when it is armed again. */
  ghost predicate LegalPeriods(s: Sys, cb: Callback)
    requires |s.rows| >= 1 && Dense(s.rows) != []
  {
    var t := Dense(s.rows)[0];
    var s2 := ApplyAll(Unlink(s, t), cb(t));
    && LegalCmds(Unlink(s, t), cb(t))
    && (t in s2.ctl && s2.ctl[t].periodic && s2.ctl[t].active ==> 1 <= s2.ctl[t].init < HALF)
  }

  /** Besides, the callback does not leave its own timer started again. */
  ghost predicate LegalFire(s: Sys, cb: Callback)
    requires |s.rows| >= 1 && Dense(s.rows) != []
  {
    LegalPeriods(s, cb) && OwnAfter(cb(Dense(s.rows)[0]), Dense(s.rows)[0], Out) != Linked
  }

  /** Every expiry of the check is legal. */
  ghost predicate LegalCheck(s: Sys, cb: Callback, n: nat)
    requires |s.rows| >= 1
    decreases n
  {
    n == 0 || Expired(s) == [] || (LegalFire(s, cb) && LegalCheck(Fire(s, cb), cb, n - 1))
  }

  /** Rows nested; the timers in them are the active ones, but for those in `own`; deadlines lie
      between `lo` and half a tick range ahead. */
  ghost predicate Inv(s: Sys, lo: int, own: set<Id>) {
    && s.mask in {1, 3} && Nested(s.rows, s.due)
    && (forall x | x in Dense(s.rows) ::
       x in s.ctl && s.ctl[x].active && x !in own && x in s.due && lo <= s.due[x] < s.now + HALF)
    && (forall x | x in s.ctl :: s.ctl[x].active ==> x in Dense(s.rows) || x in own)
  }

  // ---- expired prefix of a row ----

  lemma {:induction false} ExpMember(row: seq<Id>, due: map<Id, int>, now: int, y: Id)
    requires Sorted(row, due)
    ensures y in Exp(row, due, now) <==> y in row && Key(due, y) <= now
    decreases |row|
  {
    if row != [] {
      if Key(due, row[0]) <= now { ExpMember(row[1..], due, now, y); }
      assert row == [row[0]] + row[1..];
      assert y in row && y != row[0] ==> Key(due, row[0]) <= Key(due, y);
    }
  }

  lemma {:induction false} ExpIns(row: seq<Id>, due: map<Id, int>, now: int, x: Id, d: int)
    requires Sorted(row, due) && x !in row && d > now
    ensures Exp(Ins(row, x, due[x := d]), due[x := d], now) == Exp(row, due, now)
    decreases |row|
  {
    if row != [] && Key(due, row[0]) <= d {
      ExpIns(row[1..], due, now, x, d);
      assert Ins(row, x, due[x := d])[1..] == Ins(row[1..], x, due[x := d]);
    }
  }

  lemma {:induction false} ExpDel(row: seq<Id>, due: map<Id, int>, now: int, x: Id)
    requires Sorted(row, due)
    ensures Exp(Del(row, x), due, now) == Del(Exp(row, due, now), x)
    decreases |row|
  {
    if row != [] {
      ExpDel(row[1..], due, now, x);
      if row[0] != x {
        assert Del(row, x)[1..] == Del(row[1..], x);
        if Key(due, row[0]) <= now {
          assert Exp(row, due, now)[1..] == Exp(row[1..], due, now);
        }
      } else if Key(due, row[0]) <= now {
        assert Exp(row, due, now)[1..] == Exp(row[1..], due, now);
      } else {
        assert row[1..] != [] ==> Key(due, row[1]) > now;
      }
    }
  }

  // ---- one command ----

  /** Timer `y` waits in `s'` as it did in `s`. */
  ghost predicate Waits(s: Sys, s': Sys, y: Id) {
    y in Dense(s.rows) ==> y in Dense(s'.rows) && Key(s'.due, y) == Key(s.due, y)
  }

  lemma {:induction false} ArmSound(s: Sys, x: Id, lo: int, own: set<Id>)
    requires Inv(s, lo, own) && x in s.ctl && !s.ctl[x].active && x !in own
    requires s.ctl[x].init < HALF && lo <= s.now + s.ctl[x].init
    ensures Inv(Arm(s, x), lo, own) && x in Dense(Arm(s, x).rows)
    ensures s.ctl[x].init >= 1 ==> Expired(Arm(s, x)) == Expired(s)
    ensures forall y :: Waits(s, Arm(s, x), y)
  {
    hide Sub, Sorted, Distinct, Ins, InsRows, Height, Exp, Nested;
    var (d, nr) := (s.now + s.ctl[x].init, (s.nr + 1) % WORD);
    var (due, row) := (s.due[x := d], Dense(s.rows));
    NestedFrame(s.rows, s.due, x, d);
    NestedRows(s.rows, s.due);
    InsRowsNested(s.rows, x, due, 1 + Height(s.mask, nr, |s.rows| - 1));
    InsMember(row, x, due);
    if s.ctl[x].init >= 1 { ExpIns(row, s.due, s.now, x, d); }
  }

  lemma {:induction false} NestedRows(rows: seq<seq<Id>>, due: map<Id, int>)
    requires Nested(rows, due)
    ensures |rows| >= 1 && Sorted(Dense(rows), due) && Distinct(Dense(rows))
  {
  }

  lemma {:induction false} DelSound(s: Sys, x: Id)
    requires Nested(s.rows, s.due)
    ensures var r := DelRows(s.rows, x);
            && Nested(r, s.due) && (forall y :: y in Dense(r) <==> y in Dense(s.rows) && y != x)
            && Exp(Dense(r), s.due, s.now) == Del(Expired(s), x)
  {
    hide Sub, Sorted, Distinct, Del, DelRows, Exp, Nested;
    NestedRows(s.rows, s.due);
    DelRowsNested(s.rows, x, s.due);
    DelMember(Dense(s.rows), x);
    ExpDel(Dense(s.rows), s.due, s.now, x);
  }

  /** A command keeps the invariant and the waiting timers it does not stop. */
  lemma {:induction false} ApplySound(s: Sys, c: Cmd, lo: int, least: nat, own: set<Id>)
    requires Inv(s, lo, own) && LegalCmd(s, c, least) && lo <= s.now + least
    requires c.Start? && c.x in own ==> c.x in s.ctl && s.ctl[c.x].active
    ensures Inv(Apply(s, c), lo, own) && Apply(s, c).now == s.now && Apply(s, c).log == s.log
    ensures forall y :: c != Stop(y) ==> Waits(s, Apply(s, c), y)
    ensures least >= 1 ==> Sub(Expired(Apply(s, c)), Expired(s))
  {
    hide Sub, Exp, Nested, InsRows, DelRows, Height;
    SubSelf(Expired(s));
    if c.x in s.ctl {
      if c.Start? && !s.ctl[c.x].active {
        ArmSound(s, c.x, lo, own);
      } else if c.Stop? && s.ctl[c.x].active {
        DelSound(s, c.x);
        DelIsSub(Expired(s), c.x);
      }
    }
  }

  function OwnSet(t: Id, o: Own): set<Id> { if o == Out then {t} else {} }

  /** Timer `t` in the midst of its callback. */
  ghost predicate OwnIs(s: Sys, t: Id, o: Own) {
    && Inv(s, s.now - 1, OwnSet(t, o)) && t in s.ctl
    && (o == Out ==> s.ctl[t].active) && (o == Idle ==> !s.ctl[t].active) && (o == Linked ==> t in Dense(s.rows))
  }

  /** A timer that is not active needs no exemption. */
  lemma {:induction false} NoOwn(s: Sys, lo: int, t: Id)
    requires Inv(s, lo, {t}) && t in s.ctl && !s.ctl[t].active
    ensures Inv(s, lo, {})
  {
  }

  lemma {:induction false} OwnStep(s: Sys, c: Cmd, t: Id, o: Own)
    requires OwnIs(s, t, o) && |s.rows| >= 1 && LegalCmd(s, c, 1)
    ensures var s' := Apply(s, c);
            && OwnIs(s', t, OwnNext(c, t, o)) && s'.now == s.now && s'.log == s.log && Sub(Expired(s'), Expired(s))
            && forall y :: c != Stop(y) ==> Waits(s, s', y)
  {
    hide Nested, InsRows, DelRows, Height, Exp, Sub;
    var s' := Apply(s, c);
    ApplySound(s, c, s.now - 1, 1, OwnSet(t, o));
    if c == Stop(t) {
      if o == Out { NoOwn(s', s.now - 1, t); }
    } else {
      assert Waits(s, s', t);
    }
  }

  lemma {:induction false} ApplyAllSound(s: Sys, cs: seq<Cmd>, t: Id, o: Own)
    requires OwnIs(s, t, o) && |s.rows| >= 1 && LegalCmds(s, cs)
    ensures var s' := ApplyAll(s, cs);
            && OwnIs(s', t, OwnAfter(cs, t, o)) && s'.now == s.now && s'.log == s.log && Sub(Expired(s'), Expired(s))
            && forall y :: Stop(y) !in cs ==> Waits(s, s', y)
    decreases |cs|
  {
    hide OwnIs, LegalCmd, Apply, Expired, Waits, Sub;
    if cs == [] {
      SubSelf(Expired(s));
      forall y ensures Waits(s, s, y) { WaitsSelf(s, y); }
    } else {
      var s1 := Apply(s, cs[0]);
      OwnStep(s, cs[0], t, o);
      ApplyAllSound(s1, cs[1..], t, OwnNext(cs[0], t, o));
      var s' := ApplyAll(s, cs);
      SubTrans(Expired(s'), Expired(s1), Expired(s));
      forall y | Stop(y) !in cs ensures Waits(s, s', y) {
        assert Stop(y) != cs[0] && Stop(y) !in cs[1..];
        WaitsTrans(s, s1, s', y);
      }
    }
  }

  lemma {:induction false} WaitsSelf(s: Sys, y: Id)
    ensures Waits(s, s, y)
  {
  }

  lemma {:induction false} WaitsTrans(s: Sys, s1: Sys, s2: Sys, y: Id)
    requires Waits(s, s1, y) && Waits(s1, s2, y)
    ensures Waits(s, s2, y)
  {
  }

  // ---- one expiry ----

  lemma {:induction false} UnlinkSound(s: Sys)
    requires Inv(s, s.now - 1, {}) && Expired(s) != []
    ensures Dense(s.rows) != []
    ensures var t := Dense(s.rows)[0]; var s1 := Unlink(s, t);
            && t == Expired(s)[0] && t in s.ctl && OwnIs(s1, t, Out) && Expired(s1) == Expired(s)[1..]
            && forall y | y != t :: Waits(s, s1, y)
  {
    hide Sub, Sorted, Distinct, Del, DelRows, Nested;
    var row := Dense(s.rows);
    var t := row[0];
    NestedRows(s.rows, s.due);
    DelSound(s, t);
    DelRowsNested(s.rows, t, s.due);
    DelHead(row);
    assert Expired(s)[1..] == Exp(row[1..], s.due, s.now);
  }

  lemma {:induction false} SettleSound(s: Sys, t: Id, o: Own)
    requires OwnIs(s, t, o) && o != Linked && |s.rows| >= 1
    requires s.ctl[t].periodic && s.ctl[t].active ==> 1 <= s.ctl[t].init < HALF
    ensures var s' := Settle(s, t);
            && Inv(s', s.now - 1, {}) && s'.now == s.now && s'.log == s.log && Expired(s') == Expired(s)
            && forall y :: Waits(s, s', y)
  {
    hide Nested, InsRows, Exp, Height;
    var s1 := s.(ctl := s.ctl[t := s.ctl[t].(active := false)]);
    assert Inv(s1, s.now - 1, {});
    if s.ctl[t].periodic && s.ctl[t].active { ArmSound(s1, t, s.now - 1, {}); }
  }

  /** One turn of the loop: the first expired timer fires, and the expired ones that remain are those
      that were there, in the same order, less the ones its callback stopped. */
  lemma {:induction false} FireSound(s: Sys, cb: Callback)
    requires Inv(s, s.now - 1, {}) && |s.rows| >= 1 && Expired(s) != [] && Dense(s.rows) != [] && LegalFire(s, cb)
    ensures var s' := Fire(s, cb); var t := Expired(s)[0];
            && Inv(s', s.now - 1, {}) && s'.now == s.now && s'.log == s.log + [(t, s.now)]
            && Sub(Expired(s'), Expired(s)[1..])
            && forall y | y != t && Stop(y) !in cb(t) :: Waits(s, s', y)
  {
    hide Inv, OwnIs, OwnAfter, Expired, Waits, Sub, Settle, LegalCmds, Apply, ApplyAll;
    var t := Dense(s.rows)[0];
    UnlinkSound(s);
    var s1 := Unlink(s, t);
    ApplyAllSound(s1, cb(t), t, Out);
    var s2 := ApplyAll(s1, cb(t));
    OwnKnown(s2, t, OwnAfter(cb(t), t, Out));
    SettleSound(s2, t, OwnAfter(cb(t), t, Out));
    var s' := Settle(s2, t);
    forall y | y != t && Stop(y) !in cb(t) ensures Waits(s, s', y) {
      WaitsTrans(s, s1, s2, y);
      WaitsTrans(s, s2, s', y);
    }
  }

  lemma {:induction false} ApplyAllKeys(s: Sys, cs: seq<Cmd>)
    requires |s.rows| >= 1
    ensures ApplyAll(s, cs).ctl.Keys == s.ctl.Keys
    decreases |cs|
  {
    if cs != [] { ApplyAllKeys(Apply(s, cs[0]), cs[1..]); }
  }

  /** Linking a timer that is already linked repeats it. */
  lemma {:induction false} InsTwice(row: seq<Id>, x: Id, due: map<Id, int>)
    requires x in row
    ensures !Distinct(Ins(row, x, due))
    decreases |row|
  {
    var r := Ins(row, x, due);
    if Key(due, row[0]) > Key(due, x) {
      var j :| 0 <= j < |row| && row[j] == x;
      assert r[0] == r[j + 1];
    } else {
      InsMember(row[1..], x, due);
      assert r[1..] == Ins(row[1..], x, due);
      if row[0] == x {
        assert x in r[1..];
        var j :| 0 <= j < |r[1..]| && r[1..][j] == x;
        assert r[0] == r[j + 1];
      } else {
        InsTwice(row[1..], x, due);
        var i, j :| 0 <= i < j < |r[1..]| && r[1..][i] == r[1..][j];
        assert r[i + 1] == r[j + 1];
      }
    }
  }

  /** If a callback has linked its own timer again, what follows breaks the list: a periodic timer is
      linked twice, a one-shot one stays linked but is marked inactive. */
  lemma {:induction false} SettleLinked(s: Sys, t: Id)
    requires Inv(s, s.now - 1, {}) && |s.rows| >= 1 && t in Dense(s.rows)
    ensures !Inv(Settle(s, t), s.now - 1, {})
  {
    hide Sub, Sorted, Distinct, Ins, Height;
    var s' := Settle(s, t);
    if s.ctl[t].periodic {
      var due := s.due[t := s.now + s.ctl[t].init];
      InsTwice(Dense(s.rows), t, due);
      assert Dense(s'.rows) == Ins(Dense(s.rows), t, due);
      assert !Nested(s'.rows, s'.due);
    }
  }

  lemma {:induction false} OwnKnown(s: Sys, t: Id, o: Own)
    requires OwnIs(s, t, o)
    ensures t in s.ctl
  {
  }

  lemma {:induction false} OwnLinked(s: Sys, t: Id)
    requires OwnIs(s, t, Linked)
    ensures Inv(s, s.now - 1, {}) && t in Dense(s.rows)
  {
  }

  /** An expiry keeps the list exactly when the callback does not leave its own timer started again. */
  lemma {:induction false} FireKeeps(s: Sys, cb: Callback)
    requires Inv(s, s.now - 1, {}) && |s.rows| >= 1 && Expired(s) != [] && Dense(s.rows) != [] && LegalPeriods(s, cb)
    ensures var t := Dense(s.rows)[0]; Inv(Fire(s, cb), s.now - 1, {}) <==> OwnAfter(cb(t), t, Out) != Linked
  {
    hide Inv, OwnIs, OwnAfter, Expired, Sub, Settle, LegalCmds, Apply, ApplyAll, Waits;
    var t := Dense(s.rows)[0];
    if OwnAfter(cb(t), t, Out) == Linked {
      UnlinkSound(s);
      var s1 := Unlink(s, t);
      ApplyAllSound(s1, cb(t), t, Out);
      var s2 := ApplyAll(s1, cb(t));
      OwnLinked(s2, t);
      SettleLinked(s2, t);
    } else {
      FireSound(s, cb);
    }
  }

  lemma {:induction false} RestartLinks(t: Id)
    ensures OwnAfter([Stop(t), Start(t)], t, Out) == Linked
  {
    assert [Stop(t), Start(t)][1..] == [Start(t)] && [Start(t)][1..] == [];
    assert OwnAfter([Start(t)], t, Idle) == Linked;
  }

  // ---- the whole check ----

  /** The ids logged between two states. */
  function Fired(s: Sys, s': Sys): seq<Id>
    requires |s.log| <= |s'.log|
  {
    seq(|s'.log| - |s.log|, i requires 0 <= i < |s'.log| - |s.log| => s'.log[|s.log| + i].0)
  }

  /** `s'` adds to the log of `s`, all at tick `now`. */
  ghost predicate LogsAt(s: Sys, s': Sys, now: nat) {
    s.log <= s'.log && forall i | |s.log| <= i < |s'.log| :: s'.log[i].1 == now
  }

  /** No callback but perhaps its own stops timer `y`. */
  ghost predicate Spared(cb: Callback, y: Id) { forall t | t != y :: Stop(y) !in cb(t) }

  ghost predicate CheckResult(s: Sys, s': Sys, cb: Callback) {
    && Inv(s', s.now - 1, {}) && s'.now == s.now && Expired(s') == [] && LogsAt(s, s', s.now)
    && Sub(Fired(s, s'), Expired(s))
    && (forall y | Spared(cb, y) :: y in Expired(s) ==> y in Fired(s, s'))
    && (forall y | Spared(cb, y) :: y !in Expired(s) ==> Waits(s, s', y) && y !in Fired(s, s'))
  }

  /** The check ends after at most as many turns as there were expired timers.  It fires a sublist of
      them in deadline order, ties in starting order: all but those a callback stopped before their turn.
      No expired timer remains. */
  lemma {:induction false} CheckSound(s: Sys, cb: Callback, n: nat)
    requires Inv(s, s.now - 1, {}) && |s.rows| >= 1 && |Expired(s)| <= n && LegalCheck(s, cb, n)
    ensures CheckResult(s, Check(s, cb, n), cb)
    decreases n
  {
    hide Inv, Sub, Fire, LegalFire, Waits, Exp, Fired, Spared;
    var s' := Check(s, cb, n);
    if n == 0 || Expired(s) == [] {
      FiredNone(s);
      SubSelf(Expired(s));
      forall y ensures Waits(s, s, y) { WaitsSelf(s, y); }
    } else {
      UnlinkSound(s);
      FireSound(s, cb);
      var s1 := Fire(s, cb);
      SubLength(Expired(s1), Expired(s)[1..]);
      CheckSound(s1, cb, n - 1);
      CheckCompose(s, s1, s', cb);
    }
  }

  lemma {:induction false} FiredNone(s: Sys)
    ensures Fired(s, s) == []
  {
  }

  lemma {:induction false} FiredJoin(s: Sys, s1: Sys, s': Sys, t: Id)
    requires s1.log == s.log + [(t, s.now)] && s1.log <= s'.log
    ensures s.log <= s'.log && Fired(s, s') == [t] + Fired(s1, s')
  {
    assert s1.log[|s.log|] == s'.log[|s.log|];
  }

  lemma {:induction false} CheckCompose(s: Sys, s1: Sys, s': Sys, cb: Callback)
    requires Inv(s, s.now - 1, {}) && Expired(s) != []
    requires s1.now == s.now && s1.log == s.log + [(Expired(s)[0], s.now)]
    requires Sub(Expired(s1), Expired(s)[1..])
    requires forall y | y != Expired(s)[0] && Stop(y) !in cb(Expired(s)[0]) :: Waits(s, s1, y)
    requires CheckResult(s1, s', cb) && Inv(s1, s1.now - 1, {})
    ensures CheckResult(s, s', cb)
  {
    hide Inv, Sub, Waits, Exp, Fired, Spared, Expired;
    var (e, t) := (Expired(s), Expired(s)[0]);
    FiredJoin(s, s1, s', t);
    SubTrans(Fired(s1, s'), Expired(s1), e[1..]);
    SubCons(t, Fired(s1, s'), e);
    assert s1.log[|s.log|].1 == s.now;
    forall y | Spared(cb, y)
      ensures (y in e ==> y in Fired(s, s')) && (y !in e ==> Waits(s, s', y) && y !in Fired(s, s'))
    {
      if y != t {
        SparedIs(cb, y, t);
        WaitsExpired(s, s1, y);
        if y in Expired(s1) { assert y in e; }
        if y !in e { WaitsTrans(s, s1, s', y); }
      }
    }
  }

  lemma {:induction false} SparedIs(cb: Callback, y: Id, t: Id)
    requires Spared(cb, y) && t != y
    ensures Stop(y) !in cb(t)
  {
  }

  lemma {:induction false} SubCons(t: Id, a: seq<Id>, b: seq<Id>)
    requires b != [] && b[0] == t && Sub(a, b[1..])
    ensures Sub([t] + a, b)
  {
    assert ([t] + a)[1..] == a;
  }

  /** A waiting timer is expired before exactly when it is expired after; a timer that is in the rows
      only after is not expired, being due later. */
  lemma {:induction false} WaitsExpired(s: Sys, s1: Sys, y: Id)
    requires Inv(s, s.now - 1, {}) && Inv(s1, s1.now - 1, {}) && s1.now == s.now && Expired(s) != []
    requires Waits(s, s1, y) && Sub(Expired(s1), Expired(s)[1..])
    ensures y in Expired(s) <==> y in Expired(s1)
  {
    hide Nested, Sub, Exp;
    NestedRows(s.rows, s.due);
    NestedRows(s1.rows, s1.due);
    ExpMember(Dense(s.rows), s.due, s.now, y);
    ExpMember(Dense(s1.rows), s1.due, s1.now, y);
    if y in Expired(s1) { SubMember(Expired(s1), Expired(s)[1..], y); }
  }

  // ---- whole runs ----

  datatype Op = Do(c: Cmd) | Ticked(cb: Callback)

  function Step(s: Sys, op: Op): (r: Sys)
    requires |s.rows| >= 1
    ensures |r.rows| >= 1
  {
    match op
    case Do(c) => Apply(s, c)
    case Ticked(cb) => Tick(s, cb)
  }

  ghost predicate Legal(s: Sys, op: Op)
    requires |s.rows| >= 1
  {
    match op
    case Do(c) => LegalCmd(s, c, 0)
    case Ticked(cb) => var s1 := s.(now := s.now + 1); LegalCheck(s1, cb, |Expired(s1)|)
  }

  function Run(s: Sys, ops: seq<Op>): Sys
    requires |s.rows| >= 1
    decreases |ops|
  {
    if ops == [] then s else Run(Step(s, ops[0]), ops[1..])
  }

  ghost predicate LegalRun(s: Sys, ops: seq<Op>)
    requires |s.rows| >= 1
    decreases |ops|
  {
    ops == [] || (Legal(s, ops[0]) && LegalRun(Step(s, ops[0]), ops[1..]))
  }

  /** Between operations no timer is overdue. */
  ghost predicate Good(s: Sys) { |s.rows| >= 1 && Inv(s, s.now, {}) }

  /** A tick leaves no timer at or past its deadline. */
  lemma {:induction false} TickSound(s: Sys, cb: Callback)
    requires Good(s) && Legal(s, Ticked(cb))
    ensures Inv(Tick(s, cb), s.now + 2, {}) && Tick(s, cb).now == s.now + 1
    ensures var s1 := s.(now := s.now + 1); CheckResult(s1, Tick(s, cb), cb)
  {
    hide Sub, Nested, Exp, Fired, LegalCheck, Waits, Spared, Check;
    var s1 := s.(now := s.now + 1);
    CheckSound(s1, cb, |Expired(s1)|);
    var s' := Tick(s, cb);
    NestedRows(s'.rows, s'.due);
    forall x | x in Dense(s'.rows) ensures s'.due[x] >= s.now + 2 { ExpMember(Dense(s'.rows), s'.due, s'.now, x); }
  }

  lemma {:induction false} StepSound(s: Sys, op: Op)
    requires Good(s) && Legal(s, op)
    ensures Good(Step(s, op)) && s.now <= Step(s, op).now <= s.now + 1 && s.log <= Step(s, op).log
  {
    hide Nested, LegalCheck, LegalCmd, Apply, Tick, Waits;
    match op
    case Do(c) => ApplySound(s, c, s.now, 0, {});
    case Ticked(cb) => TickSound(s, cb);
  }

  /** Over every run the rows stay nested and no timer is overdue. */
  lemma {:induction false} RunSound(s: Sys, ops: seq<Op>)
    requires Good(s) && LegalRun(s, ops)
    ensures Good(Run(s, ops)) && s.log <= Run(s, ops).log && s.now <= Run(s, ops).now
    decreases |ops|
  {
    hide Good, Legal, Step;
    if ops != [] {
      GoodInv(s);
      StepSound(s, ops[0]);
      RunSound(Step(s, ops[0]), ops[1..]);
    }
  }

  /** Neither an operation of the run nor the callback of another timer stops timer `y`. */
  ghost predicate Quiet(ops: seq<Op>, y: Id) {
    forall i | 0 <= i < |ops| :: ops[i] != Do(Stop(y)) && (ops[i].Ticked? ==> Spared(ops[i].cb, y))
  }

  ghost predicate Silent(log: seq<(Id, nat)>, from: nat, to: nat, y: Id) {
    to <= |log| && forall i | from <= i < to :: log[i].0 != y
  }

  /** The first entry for `y` at or after `from` is at tick `d`. */
  ghost predicate FirstAt(log: seq<(Id, nat)>, from: nat, y: Id, d: nat) {
    exists i :: from <= i < |log| && log[i] == (y, d) && Silent(log, from, i, y)
  }

  lemma {:induction false} StepWaits(s: Sys, op: Op, y: Id)
    requires Good(s) && Legal(s, op) && Quiet([op], y) && y in Dense(s.rows) && s.due[y] > s.now
    ensures var (s', d) := (Step(s, op), s.due[y]);
            if s'.now < d then y in Dense(s'.rows) && y in s'.due && s'.due[y] == d
                && Silent(s'.log, |s.log|, |s'.log|, y)
            else FirstAt(s'.log, |s.log|, y, d)
  {
    hide Nested, LegalCheck, LegalCmd, Apply, Tick, Exp, Sub;
    assert [op][0] == op;
    match op
    case Do(c) =>
      ApplySound(s, c, s.now, 0, {});
      assert Waits(s, Apply(s, c), y);
    case Ticked(cb) =>
      TickSound(s, cb);
      var (s1, s') := (s.(now := s.now + 1), Tick(s, cb));
      NestedRows(s.rows, s.due);
      ExpMember(Dense(s.rows), s.due, s1.now, y);
      if s1.now < s.due[y] {
        FiredSilent(s1, s', y);
      } else {
        FiredFirst(s1, s', y);
      }
  }

  lemma {:induction false} FiredSilent(s: Sys, s': Sys, y: Id)
    requires s.log <= s'.log && y !in Fired(s, s')
    ensures Silent(s'.log, |s.log|, |s'.log|, y)
  {
    forall i | |s.log| <= i < |s'.log| ensures s'.log[i].0 != y { assert Fired(s, s')[i - |s.log|] == s'.log[i].0; }
  }

  lemma {:induction false} FiredFirst(s: Sys, s': Sys, y: Id)
    requires LogsAt(s, s', s.now) && y in Fired(s, s')
    ensures FirstAt(s'.log, |s.log|, y, s.now)
  {
    var i := |s.log|;
    while s'.log[i].0 != y
      invariant |s.log| <= i < |s'.log| && Silent(s'.log, |s.log|, i, y)
      invariant exists j :: i - |s.log| <= j < |Fired(s, s')| && Fired(s, s')[j] == y
      decreases |s'.log| - i
    {
      i := i + 1;
    }
    assert s'.log[i] == (y, s.now);
  }

  /** A waiting timer that nobody stops expires exactly at its deadline and not before, whatever else
      happens in between. */
  lemma {:induction false} FiresExactly(s: Sys, ops: seq<Op>, y: Id)
    requires Good(s) && LegalRun(s, ops) && Quiet(ops, y) && y in Dense(s.rows) && s.due[y] > s.now
    ensures var (s', d) := (Run(s, ops), s.due[y]);
            if s'.now < d then y in Dense(s'.rows) && Key(s'.due, y) == d && Silent(s'.log, |s.log|, |s'.log|, y)
            else FirstAt(s'.log, |s.log|, y, d)
    decreases |ops|
  {
    hide Good, Legal, Step, Spared, Silent, FirstAt;
    GoodInv(s);
    GoodDue(s, y);
    if ops == [] {
      assert Silent(s.log, |s.log|, |s.log|, y) by { SilentNone(s.log, y); }
    } else {
      var (s1, s', d) := (Step(s, ops[0]), Run(s, ops), s.due[y]);
      assert [ops[0]][0] == ops[0];
      StepWaits(s, ops[0], y);
      StepSound(s, ops[0]);
      RunSound(s1, ops[1..]);
      if s1.now < d {
        FiresExactly(s1, ops[1..], y);
        Later(s1.log, s'.log, |s.log|, y, d);
      } else {
        FirstKept(s1.log, s'.log, |s.log|, y, d);
      }
    }
  }

  lemma {:induction false} SilentNone(log: seq<(Id, nat)>, y: Id)
    ensures Silent(log, |log|, |log|, y)
  {
  }

  lemma {:induction false} GoodDue(s: Sys, y: Id)
    requires Good(s) && y in Dense(s.rows)
    ensures y in s.due
  {
  }

  lemma {:induction false} Later(log: seq<(Id, nat)>, log': seq<(Id, nat)>, from: nat, y: Id, d: nat)
    requires from <= |log| && log <= log' && Silent(log, from, |log|, y)
    ensures Silent(log', |log|, |log'|, y) ==> Silent(log', from, |log'|, y)
    ensures FirstAt(log', |log|, y, d) ==> FirstAt(log', from, y, d)
  {
    assert forall i | from <= i < |log| :: log'[i] == log[i];
    if FirstAt(log', |log|, y, d) {
      var i :| |log| <= i < |log'| && log'[i] == (y, d) && Silent(log', |log|, i, y);
      assert Silent(log', from, i, y);
    }
  }

  lemma {:induction false} FirstKept(log: seq<(Id, nat)>, log': seq<(Id, nat)>, from: nat, y: Id, d: nat)
    requires log <= log' && FirstAt(log, from, y, d)
    ensures FirstAt(log', from, y, d)
  {
    var i :| from <= i < |log| && log[i] == (y, d) && Silent(log, from, i, y);
    assert log'[i] == (y, d) && Silent(log', from, i, y);
  }

  /** A timer started at tick c with period n >= 1 expires at c + n. */
  lemma {:induction false} StartedFires(s: Sys, ops: seq<Op>, x: Id)
    requires Good(s) && x in s.ctl && !s.ctl[x].active && 1 <= s.ctl[x].init
    requires LegalRun(s, [Do(Start(x))] + ops) && Quiet(ops, x)
    ensures var (s', d) := (Run(s, [Do(Start(x))] + ops), s.now + s.ctl[x].init);
            if s'.now < d then x in Dense(s'.rows) && Silent(s'.log, |s.log|, |s'.log|, x)
            else FirstAt(s'.log, |s.log|, x, d)
  {
    hide Good, LegalRun, Run, Nested, InsRows, Height;
    GoodInv(s);
    var (op, s1) := (Do(Start(x)), Arm(s, x));
    var all := [op] + ops;
    assert all[0] == op && all[1..] == ops;
    StartFirst(s, all);
    StepSound(s, op);
    ArmSound(s, x, s.now, {});
    FiresExactly(s1, ops, x);
  }

  lemma {:induction false} GoodInv(s: Sys)
    requires Good(s)
    ensures Inv(s, s.now, {}) && |s.rows| >= 1
  {
  }

  lemma {:induction false} StartFirst(s: Sys, ops: seq<Op>)
    requires |s.rows| >= 1 && ops != [] && LegalRun(s, ops)
    ensures Legal(s, ops[0]) && LegalRun(Step(s, ops[0]), ops[1..]) && Run(s, ops) == Run(Step(s, ops[0]), ops[1..])
  {
  }

  // ---- a callback that breaks the list ----

  /** A system with one timer, number 0, not started. */
  function Lone(mask: nat, period: nat, periodic: bool): Sys {
    Sys(mask, [[]], map[], map[0 := Ctl(period, false, periodic)], 0, 0, [])
  }

  /** That timer, `now` ticks after it was started. */
  function Armed(mask: nat, period: nat, periodic: bool, now: nat): Sys {
    Sys(mask, [[0]], map[0 := period], map[0 := Ctl(period, true, periodic)], 1, now, [])
  }

  lemma {:induction false} LoneStarts(mask: nat, period: nat, periodic: bool)
    requires mask in {1, 3} && period < HALF
    ensures Good(Lone(mask, period, periodic)) && Legal(Lone(mask, period, periodic), Do(Start(0)))
    ensures Step(Lone(mask, period, periodic), Do(Start(0))) == Armed(mask, period, periodic, 0)
  {
    var (s, s') := (Lone(mask, period, periodic), Apply(Lone(mask, period, periodic), Start(0)));
    assert Nested([[]], map[]);
    assert InsRows([[]], 0, map[0 := period], 1) == [[0]];
  }

  lemma {:induction false} ArmedOk(mask: nat, period: nat, periodic: bool, now: nat)
    requires mask in {1, 3} && now <= period < HALF
    ensures var s := Armed(mask, period, periodic, now);
            Inv(s, now, {}) && Dense(s.rows) == [0] && Expired(s) == if now < period then [] else [0]
  {
    var s := Armed(mask, period, periodic, now);
    assert Dense(s.rows) == [0] && [0][1..] == [];
    assert Exp([], s.due, now) == [];
    assert Exp([0], s.due, now) == if now < period then [] else [0] + Exp([0][1..], s.due, now);
  }

  lemma {:induction false} ArmedTick(mask: nat, period: nat, periodic: bool, now: nat, cb: Callback)
    requires mask in {1, 3} && now + 1 < period < HALF
    ensures var s := Armed(mask, period, periodic, now);
            Legal(s, Ticked(cb)) && Step(s, Ticked(cb)) == Armed(mask, period, periodic, now + 1)
  {
    hide Exp, Inv;
    ArmedOk(mask, period, periodic, now + 1);
  }

  /** Ticks before the deadline only move the clock. */
  lemma {:induction false} ArmedTicks(mask: nat, period: nat, periodic: bool, now: nat, cb: Callback, n: nat)
    requires mask in {1, 3} && now + n < period < HALF
    ensures var (s, ops) := (Armed(mask, period, periodic, now), seq(n, _ => Ticked(cb)));
            LegalRun(s, ops) && Run(s, ops) == Armed(mask, period, periodic, now + n)
    decreases n
  {
    hide Legal, Step;
    if n > 0 {
      var (s, ops) := (Armed(mask, period, periodic, now), seq(n, _ => Ticked(cb)));
      assert ops[0] == Ticked(cb) && ops[1..] == seq(n - 1, _ => Ticked(cb));
      ArmedTick(mask, period, periodic, now, cb);
      ArmedTicks(mask, period, periodic, now + 1, cb, n - 1);
    }
  }

  lemma {:induction false} ArmedRestarts(mask: nat, period: nat, periodic: bool, cb: Callback)
    requires mask in {1, 3} && 1 <= period < HALF && cb(0) == [Stop(0), Start(0)]
    ensures var s := Armed(mask, period, periodic, period); LegalPeriods(s, cb)
  {
    var s := Armed(mask, period, periodic, period);
    var (s1, c1, c2) := (Unlink(s, 0), Cmd.Stop(0), Cmd.Start(0));
    assert [c1, c2][1..] == [c2] && [c2][1..] == [];
    var s2 := Apply(s1, c1);
    var s3 := Apply(s2, c2);
    assert s2.ctl[0] == Ctl(period, false, periodic) && s3.ctl[0] == Ctl(period, true, periodic);
    assert LegalCmd(s2, c2, 1) && LegalCmds(s3, []);
    assert LegalCmds(s2, [c2]);
    assert ApplyAll(s3, []) == s3;
    assert ApplyAll(s2, [c2]) == s3;
  }

  /** A timer is started and the clock reaches its deadline; its callback stops and restarts it.  All
      calls are legal and the state before is good, but the tick leaves the list broken, for one-shot and
      periodic timers of every period. */
  lemma {:induction false} RestartBreaks(mask: nat, period: nat, periodic: bool, cb: Callback)
    requires mask in {1, 3} && 1 <= period < HALF && cb(0) == [Stop(0), Start(0)]
    ensures var (s0, ops) := (Lone(mask, period, periodic), [Do(Start(0))] + seq(period - 1, _ => Ticked(cb)));
            && Good(s0) && LegalRun(s0, ops)
            && var s := Run(s0, ops).(now := period);
               && Inv(s, s.now - 1, {}) && Expired(s) == [0] && Dense(s.rows) == [0] && LegalPeriods(s, cb)
               && !Inv(Fire(s, cb), s.now - 1, {}) && !Good(Step(Run(s0, ops), Ticked(cb)))
  {
    hide Inv, Exp, LegalPeriods, Fire, Legal, Step, Expired, Lone, Armed;
    LoneStarts(mask, period, periodic);
    LoneRuns(mask, period, periodic, cb);
    ArmedBreaks(mask, period, periodic, cb);
  }

  lemma {:induction false} LoneRuns(mask: nat, period: nat, periodic: bool, cb: Callback)
    requires mask in {1, 3} && 1 <= period < HALF
    ensures var (s0, ops) := (Lone(mask, period, periodic), [Do(Start(0))] + seq(period - 1, _ => Ticked(cb)));
            && |s0.rows| >= 1 && LegalRun(s0, ops) && Run(s0, ops) == Armed(mask, period, periodic, period - 1)
            && Run(s0, ops).(now := period) == Armed(mask, period, periodic, period)
  {
    hide Legal, Step;
    var (s0, ticks) := (Lone(mask, period, periodic), seq(period - 1, _ => Ticked(cb)));
    var ops := [Do(Start(0))] + ticks;
    LoneStarts(mask, period, periodic);
    assert ops[0] == Do(Start(0)) && ops[1..] == ticks;
    ArmedTicks(mask, period, periodic, 0, cb, period - 1);
  }

  lemma {:induction false} ArmedBreaks(mask: nat, period: nat, periodic: bool, cb: Callback)
    requires mask in {1, 3} && 1 <= period < HALF && cb(0) == [Stop(0), Start(0)]
    ensures var (s, s4) := (Armed(mask, period, periodic, period), Armed(mask, period, periodic, period - 1));
            && Inv(s, s.now - 1, {}) && Expired(s) == [0] && Dense(s.rows) == [0] && LegalPeriods(s, cb)
            && !Inv(Fire(s, cb), s.now - 1, {}) && !Good(Step(s4, Ticked(cb)))
  {
    hide Inv, Exp, LegalPeriods, Fire;
    var (s, s4) := (Armed(mask, period, periodic, period), Armed(mask, period, periodic, period - 1));
    ArmedOk(mask, period, periodic, period);
    ArmedRestarts(mask, period, periodic, cb);
    InvEarlier(s, period, period - 1);
    RestartLinks(0);
    FireKeeps(s, cb);
    assert s4.(now := period) == s;
    assert Check(s, cb, 1) == Check(Fire(s, cb), cb, 0) == Fire(s, cb);
    if Good(Fire(s, cb)) {
      FireNow(s, cb);
      InvEarlier(Fire(s, cb), period, period - 1);
    }
  }

  lemma {:induction false} InvEarlier(s: Sys, lo: int, lo': int)
    requires Inv(s, lo, {}) && lo' <= lo
    ensures Inv(s, lo', {})
  {
  }

  lemma {:induction false} ApplyAllNow(s: Sys, cs: seq<Cmd>)
    requires |s.rows| >= 1
    ensures ApplyAll(s, cs).now == s.now
    decreases |cs|
  {
    if cs != [] { ApplyAllNow(Apply(s, cs[0]), cs[1..]); }
  }

  lemma {:induction false} FireNow(s: Sys, cb: Callback)
    requires |s.rows| >= 1 && Dense(s.rows) != []
    ensures Fire(s, cb).now == s.now
  {
    ApplyAllNow(Unlink(s, Dense(s.rows)[0]), cb(Dense(s.rows)[0]));
  }

  // ---- periodic timers ----

  /** Call `c` leaves timer `y` a running periodic timer of period `p`. */
  predicate Harmless(c: Cmd, y: Id, p: nat) {
    c.x != y || c.Start? || c == SetTime(y, p) || c == SetPeriodic(y, true)
  }

  ghost predicate Steady(cb: Callback, y: Id, p: nat) {
    forall t, i | 0 <= i < |cb(t)| :: Harmless(cb(t)[i], y, p)
  }

  /** Nothing in the run stops timer `y` or changes its period or kind. */
  ghost predicate Undisturbed(ops: seq<Op>, y: Id, p: nat) {
    forall i | 0 <= i < |ops| :: if ops[i].Do? then Harmless(ops[i].c, y, p) else Steady(ops[i].cb, y, p)
  }

  ghost predicate Beating(s: Sys, y: Id, p: nat) { y in s.ctl && s.ctl[y] == Ctl(p, true, true) }

  lemma {:induction false} ApplyBeats(s: Sys, c: Cmd, y: Id, p: nat)
    requires |s.rows| >= 1 && Beating(s, y, p) && Harmless(c, y, p)
    ensures Beating(Apply(s, c), y, p)
  {
  }

  lemma {:induction false} ApplyAllBeats(s: Sys, cs: seq<Cmd>, y: Id, p: nat)
    requires |s.rows| >= 1 && Beating(s, y, p) && forall i | 0 <= i < |cs| :: Harmless(cs[i], y, p)
    ensures Beating(ApplyAll(s, cs), y, p)
    decreases |cs|
  {
    hide Beating, Apply;
    if cs != [] {
      ApplyBeats(s, cs[0], y, p);
      ApplyAllBeats(Apply(s, cs[0]), cs[1..], y, p);
    }
  }

  lemma {:induction false} SteadySpared(cb: Callback, y: Id, p: nat)
    requires Steady(cb, y, p)
    ensures Spared(cb, y) && forall t :: Stop(y) !in cb(t)
  {
    forall t ensures Stop(y) !in cb(t) {
      forall i | 0 <= i < |cb(t)| ensures cb(t)[i] != Stop(y) { assert Harmless(cb(t)[i], y, p); }
    }
  }

  /** An expiry keeps a running periodic timer running; if it is the one that expires, it is due again
      one period later. */
  lemma {:induction false} FireBeats(s: Sys, cb: Callback, y: Id, p: nat)
    requires |s.rows| >= 1 && Dense(s.rows) != [] && Beating(s, y, p) && Steady(cb, y, p)
    ensures Beating(Fire(s, cb), y, p)
    ensures y == Dense(s.rows)[0] ==> y in Dense(Fire(s, cb).rows) && Key(Fire(s, cb).due, y) == s.now + p
  {
    hide Apply, Ins, Height, Del;
    var t := Dense(s.rows)[0];
    var s1 := Unlink(s, t);
    assert Beating(s1, y, p);
    ApplyAllBeats(s1, cb(t), y, p);
    ApplyAllNow(s1, cb(t));
    var s2 := ApplyAll(s1, cb(t));
    if t == y {
      var due := s2.due[y := s2.now + p];
      InsMember(Dense(s2.rows), y, due);
      assert Dense(Fire(s, cb).rows) == Ins(Dense(s2.rows), y, due);
    }
  }

  /** The ticks at which the log says `y` expired. */
  function TimesOf(log: seq<(Id, nat)>, y: Id): seq<nat> {
    if log == [] then [] else (if log[0].0 == y then [log[0].1] else []) + TimesOf(log[1..], y)
  }

  lemma {:induction false} TimesJoin(a: seq<(Id, nat)>, b: seq<(Id, nat)>, y: Id)
    ensures TimesOf(a + b, y) == TimesOf(a, y) + TimesOf(b, y)
    decreases |a|
  {
    if a == [] {
      assert a + b == b;
    } else {
      var h := if a[0].0 == y then [a[0].1] else [];
      assert (a + b)[0] == a[0] && (a + b)[1..] == a[1..] + b;
      TimesJoin(a[1..], b, y);
      var (s, t) := (TimesOf(a[1..], y), TimesOf(b, y));
      assert TimesOf(a, y) == h + s && TimesOf(a + b, y) == h + (s + t);
      assert h + (s + t) == (h + s) + t;
    }
  }

  lemma {:induction false} TimesNone(log: seq<(Id, nat)>, y: Id)
    requires forall i | 0 <= i < |log| :: log[i].0 != y
    ensures TimesOf(log, y) == []
    decreases |log|
  {
    if log != [] { TimesNone(log[1..], y); }
  }

  /** What `s'` has logged of `y` since `s`. */
  function Since(s: Sys, s': Sys, y: Id): seq<nat>
    requires |s.log| <= |s'.log|
  {
    TimesOf(s'.log[|s.log|..], y)
  }

  lemma {:induction false} SinceJoin(s: Sys, s1: Sys, s': Sys, y: Id)
    requires s.log <= s1.log <= s'.log
    ensures s.log <= s'.log && Since(s, s', y) == Since(s, s1, y) + Since(s1, s', y)
  {
    assert s'.log[|s.log|..] == s1.log[|s.log|..] + s'.log[|s1.log|..];
    TimesJoin(s1.log[|s.log|..], s'.log[|s1.log|..], y);
  }

  lemma {:induction false} SinceSilent(s: Sys, s': Sys, y: Id)
    requires s.log <= s'.log && Silent(s'.log, |s.log|, |s'.log|, y)
    ensures Since(s, s', y) == []
  {
    TimesNone(s'.log[|s.log|..], y);
  }

  lemma {:induction false} SinceOne(s: Sys, s': Sys, t: Id, y: Id)
    requires s'.log == s.log + [(t, s.now)]
    ensures Since(s, s', y) == if t == y then [s.now] else []
  {
    assert s'.log[|s.log|..] == [(t, s.now)] && [(t, s.now)][1..] == [];
    assert TimesOf([(t, s.now)], y) == (if t == y then [s.now] else []) + TimesOf([], y);
  }

  ghost predicate Beat(s: Sys, s': Sys, y: Id, p: nat) {
    && s.log <= s'.log && Since(s, s', y) == [s.now] && Beating(s', y, p) && s'.now == s.now
    && y in Dense(s'.rows) && Key(s'.due, y) == s.now + p
  }

  /** A check in which a running periodic timer is expired fires it once and leaves it due one period
      later. */
  lemma {:induction false} CheckBeats(s: Sys, cb: Callback, n: nat, y: Id, p: nat)
    requires Inv(s, s.now - 1, {}) && |s.rows| >= 1 && |Expired(s)| <= n && LegalCheck(s, cb, n)
    requires Beating(s, y, p) && Steady(cb, y, p) && y in Expired(s) && p >= 1
    ensures Beat(s, Check(s, cb, n), y, p)
    decreases n
  {
    hide Inv, Sub, Fire, LegalFire, Waits, Exp, Fired, Spared, Steady, Beating, Since, Silent;
    UnlinkSound(s);
    FireSound(s, cb);
    SteadySpared(cb, y, p);
    FireBeats(s, cb, y, p);
    var (t, s1, s') := (Expired(s)[0], Fire(s, cb), Check(s, cb, n));
    SubLength(Expired(s1), Expired(s)[1..]);
    SinceOne(s, s1, t, y);
    if t == y {
      DueLater(s1, y);
      CheckIdle(s1, cb, n - 1, y, p);
      SinceJoin(s, s1, s', y);
      assert Since(s, s', y) == [s.now] + [];
    } else {
      WaitsExpired(s, s1, y);
      CheckBeats(s1, cb, n - 1, y, p);
      SinceJoin(s, s1, s', y);
      assert Since(s, s', y) == [] + [s.now];
    }
  }

  lemma {:induction false} DueLater(s: Sys, y: Id)
    requires Inv(s, s.now - 1, {}) && Key(s.due, y) > s.now
    ensures y !in Expired(s)
  {
    hide Nested, Exp, Sub;
    NestedRows(s.rows, s.due);
    ExpMember(Dense(s.rows), s.due, s.now, y);
  }

  /** A check in which it is not expired leaves it alone. */
  lemma {:induction false} CheckIdle(s: Sys, cb: Callback, n: nat, y: Id, p: nat)
    requires Inv(s, s.now - 1, {}) && |s.rows| >= 1 && |Expired(s)| <= n && LegalCheck(s, cb, n)
    requires Beating(s, y, p) && Steady(cb, y, p) && y !in Expired(s) && y in Dense(s.rows)
    ensures var s' := Check(s, cb, n);
            && s.log <= s'.log && Since(s, s', y) == [] && Beating(s', y, p) && s'.now == s.now
            && y in Dense(s'.rows) && Key(s'.due, y) == Key(s.due, y)
  {
    hide Inv, Sub, Fire, LegalFire, Exp, Fired, Spared, Steady, Beating, Since, Check, Silent, Expired;
    CheckSound(s, cb, n);
    SteadySpared(cb, y, p);
    var s' := Check(s, cb, n);
    FiredSilent(s, s', y);
    SinceSilent(s, s', y);
    CheckKeepsBeat(s, cb, n, y, p);
  }

  lemma {:induction false} CheckKeepsBeat(s: Sys, cb: Callback, n: nat, y: Id, p: nat)
    requires Inv(s, s.now - 1, {}) && |s.rows| >= 1 && |Expired(s)| <= n && LegalCheck(s, cb, n)
    requires Beating(s, y, p) && Steady(cb, y, p)
    ensures Beating(Check(s, cb, n), y, p)
    decreases n
  {
    hide Inv, Sub, Fire, LegalFire, Waits, Exp, Steady, Beating;
    if n > 0 && Expired(s) != [] {
      UnlinkSound(s);
      FireSound(s, cb);
      FireBeats(s, cb, y, p);
      SubLength(Expired(Fire(s, cb)), Expired(s)[1..]);
      CheckKeepsBeat(Fire(s, cb), cb, n - 1, y, p);
    }
  }

  /** The instants d, d + p, d + 2p, ... up to `now`. */
  function Beats(d: nat, p: nat, now: nat): seq<nat>
    requires p >= 1
    decreases now + 1 - d
  {
    if d > now then [] else [d] + Beats(d + p, p, now)
  }

  lemma {:induction false} BeatsAt(d: nat, p: nat, now: nat, k: nat)
    requires p >= 1
    ensures k < |Beats(d, p, now)| <==> d + k * p <= now
    ensures k < |Beats(d, p, now)| ==> Beats(d, p, now)[k] == d + k * p
    decreases now + 1 - d
  {
    if d > now {
      assert k * p >= 0;
    } else if k > 0 {
      BeatsAt(d + p, p, now, k - 1);
      assert d + k * p == d + p + (k - 1) * p;
    }
  }

  ghost predicate Pulse(s: Sys, y: Id, p: nat) {
    Good(s) && Beating(s, y, p) && y in Dense(s.rows) && Key(s.due, y) > s.now
  }

  lemma {:induction false} StepBeats(s: Sys, op: Op, y: Id, p: nat)
    requires Pulse(s, y, p) && Legal(s, op) && Undisturbed([op], y, p) && p >= 1
    ensures var (s', d) := (Step(s, op), Key(s.due, y));
            && Pulse(s', y, p) && s.log <= s'.log
            && if s'.now < d then Since(s, s', y) == [] && Key(s'.due, y) == d
               else Since(s, s', y) == [d] && Key(s'.due, y) == d + p && s'.now == d
  {
    hide Nested, LegalCheck, LegalCmd, Apply, Check, Exp, Sub, Since, Steady, Beating, Waits, Inv;
    assert [op][0] == op;
    GoodInv(s);
    StepSound(s, op);
    match op
    case Do(c) =>
      ApplySound(s, c, s.now, 0, {});
      assert Waits(s, Apply(s, c), y);
      WaitsIs(s, Apply(s, c), y);
      ApplyBeats(s, c, y, p);
      SinceSilent(s, Apply(s, c), y);
    case Ticked(cb) =>
      var s1 := s.(now := s.now + 1);
      Advance(s, y, p);
      if s1.now < Key(s.due, y) {
        DueLater(s1, y);
        CheckIdle(s1, cb, |Expired(s1)|, y, p);
      } else {
        CheckBeats(s1, cb, |Expired(s1)|, y, p);
      }
      SinceSame(s, s1, Step(s, op), y);
  }

  lemma {:induction false} WaitsIs(s: Sys, s': Sys, y: Id)
    requires Waits(s, s', y) && y in Dense(s.rows)
    ensures y in Dense(s'.rows) && Key(s'.due, y) == Key(s.due, y)
  {
  }

  /** The clock moves on. */
  lemma {:induction false} Advance(s: Sys, y: Id, p: nat)
    requires Pulse(s, y, p)
    ensures var s1 := s.(now := s.now + 1);
            && Inv(s1, s1.now - 1, {}) && Beating(s1, y, p)
            && (Key(s.due, y) == s1.now ==> y in Expired(s1))
  {
    hide Nested, Exp, Sub;
    NestedRows(s.rows, s.due);
    ExpMember(Dense(s.rows), s.due, s.now + 1, y);
  }

  /** A running periodic timer that nobody disturbs expires exactly at its deadline and then once every
      period, whatever else happens. */
  lemma {:induction false} PeriodicFires(s: Sys, ops: seq<Op>, y: Id, p: nat)
    requires Pulse(s, y, p) && |s.rows| >= 1 && LegalRun(s, ops) && Undisturbed(ops, y, p) && p >= 1
    ensures var s' := Run(s, ops);
            && Pulse(s', y, p) && s.log <= s'.log && Since(s, s', y) == Beats(Key(s.due, y), p, s'.now)
    decreases |ops|
  {
    hide Pulse, Legal, Step, Steady, Harmless, Since, Beats;
    PulseIs(s, y, p);
    if ops == [] {
      SinceSelf(s, y);
      BeatsNext(Key(s.due, y), p, s.now);
    } else {
      var (op, s1, s') := (ops[0], Step(s, ops[0]), Run(s, ops));
      assert [op][0] == op;
      StepBeats(s, op, y, p);
      PulseIs(s1, y, p);
      PeriodicFires(s1, ops[1..], y, p);
      SinceJoin(s, s1, s', y);
      RunSound(s1, ops[1..]);
      BeatsNext(Key(s.due, y), p, s'.now);
      assert [] + Since(s1, s', y) == Since(s1, s', y);
    }
  }

  lemma {:induction false} PulseIs(s: Sys, y: Id, p: nat)
    requires Pulse(s, y, p)
    ensures Good(s) && |s.rows| >= 1 && 0 <= s.now < Key(s.due, y)
  {
  }

  lemma {:induction false} SinceSame(s: Sys, s1: Sys, s': Sys, y: Id)
    requires s.log == s1.log && |s.log| <= |s'.log|
    ensures Since(s, s', y) == Since(s1, s', y)
  {
  }

  lemma {:induction false} SinceSelf(s: Sys, y: Id)
    ensures Since(s, s, y) == []
  {
    assert s.log[|s.log|..] == [];
  }

  lemma {:induction false} BeatsNext(d: nat, p: nat, now: nat)
    requires p >= 1
    ensures d > now ==> Beats(d, p, now) == []
    ensures d <= now ==> Beats(d, p, now) == [d] + Beats(d + p, p, now)
  {
  }

  // ---- timers that are not armed again ----

  ghost predicate Off(s: Sys, y: Id) { y in s.ctl && !s.ctl[y].active }

  /** Nothing in the run starts timer `y`. */
  ghost predicate Unstarted(ops: seq<Op>, y: Id) {
    forall i | 0 <= i < |ops| :: if ops[i].Do? then ops[i].c != Start(y) else NoStart(ops[i].cb, y)
  }

  ghost predicate NoStart(cb: Callback, y: Id) { forall t :: Start(y) !in cb(t) }

  lemma {:induction false} ApplyAllOff(s: Sys, cs: seq<Cmd>, y: Id)
    requires |s.rows| >= 1 && Off(s, y) && Start(y) !in cs
    ensures Off(ApplyAll(s, cs), y)
    decreases |cs|
  {
    if cs != [] {
      assert cs[0] in cs;
      ApplyAllOff(Apply(s, cs[0]), cs[1..], y);
    }
  }

  lemma {:induction false} OffDense(s: Sys, y: Id)
    requires Inv(s, s.now - 1, {}) && Off(s, y)
    ensures y !in Dense(s.rows) && y !in Expired(s)
  {
    hide Nested, Exp, Sub;
    NestedRows(s.rows, s.due);
    ExpMember(Dense(s.rows), s.due, s.now, y);
  }

  lemma {:induction false} FireOff(s: Sys, cb: Callback, y: Id)
    requires |s.rows| >= 1 && Dense(s.rows) != [] && Off(s, y) && NoStart(cb, y) && Dense(s.rows)[0] != y
    ensures Off(Fire(s, cb), y)
  {
    hide Apply;
    var t := Dense(s.rows)[0];
    ApplyAllOff(Unlink(s, t), cb(t), y);
  }

  lemma {:induction false} CheckOff(s: Sys, cb: Callback, n: nat, y: Id)
    requires Inv(s, s.now - 1, {}) && |s.rows| >= 1 && |Expired(s)| <= n && LegalCheck(s, cb, n)
    requires Off(s, y) && NoStart(cb, y)
    ensures var s' := Check(s, cb, n); s.log <= s'.log && Since(s, s', y) == [] && Off(s', y) && s'.now == s.now
    decreases n
  {
    hide Inv, Sub, Fire, LegalFire, Waits, Exp, Fired, Spared, NoStart, Off, Since;
    OffDense(s, y);
    if n > 0 && Expired(s) != [] {
      UnlinkSound(s);
      FireSound(s, cb);
      var (t, s1, s') := (Expired(s)[0], Fire(s, cb), Check(s, cb, n));
      assert t in Expired(s);
      FireOff(s, cb, y);
      SubLength(Expired(s1), Expired(s)[1..]);
      SinceOne(s, s1, t, y);
      CheckOff(s1, cb, n - 1, y);
      SinceJoin(s, s1, s', y);
      assert Since(s, s', y) == [] + [];
    } else {
      SinceSelf(s, y);
    }
  }

  lemma {:induction false} StepOff(s: Sys, op: Op, y: Id)
    requires Good(s) && Off(s, y) && Legal(s, op) && Unstarted([op], y)
    ensures var s' := Step(s, op); Good(s') && Off(s', y) && s.log <= s'.log && Since(s, s', y) == [] && s.now <= s'.now
  {
    hide Nested, LegalCheck, LegalCmd, Check, Exp, Sub, Since, NoStart, Waits, Inv;
    assert [op][0] == op;
    GoodInv(s);
    StepSound(s, op);
    match op
    case Do(c) =>
      ApplySound(s, c, s.now, 0, {});
      SinceSilent(s, Apply(s, c), y);
    case Ticked(cb) =>
      var s1 := s.(now := s.now + 1);
      InvTicks(s);
      CheckOff(s1, cb, |Expired(s1)|, y);
      SinceSame(s, s1, Step(s, op), y);
  }

  lemma {:induction false} InvTicks(s: Sys)
    requires Good(s)
    ensures var s1 := s.(now := s.now + 1); Inv(s1, s1.now - 1, {})
  {
    hide Nested;
  }

  /** A timer that is not active stays so, in no row, and does not expire until somebody starts it. */
  lemma {:induction false} StoppedSilent(s: Sys, ops: seq<Op>, y: Id)
    requires Good(s) && Off(s, y) && LegalRun(s, ops) && Unstarted(ops, y)
    ensures var s' := Run(s, ops);
            && Good(s') && Off(s', y) && y !in Dense(s'.rows) && s.log <= s'.log && Since(s, s', y) == []
            && s.now <= s'.now
    decreases |ops|
  {
    hide Good, Off, Legal, Step, NoStart, Since;
    GoodInv(s);
    if ops == [] {
      SinceSelf(s, y);
      InvEarlier(s, s.now, s.now - 1);
      OffDense(s, y);
    } else {
      var (op, s1, s') := (ops[0], Step(s, ops[0]), Run(s, ops));
      assert [op][0] == op;
      StepOff(s, op, y);
      GoodInv(s1);
      StoppedSilent(s1, ops[1..], y);
      SinceJoin(s, s1, s', y);
      assert Since(s, s', y) == [] + [];
    }
  }

  /** rt_timer_stop, whether it succeeds or not. */
  lemma {:induction false} StopStops(s: Sys, y: Id)
    requires |s.rows| >= 1 && y in s.ctl
    ensures var s' := Apply(s, Stop(y));
            && Off(s', y) && s'.ctl.Keys == s.ctl.Keys && s'.log == s.log && s'.now == s.now
            && (s.ctl[y].active ==> forall i | 0 <= i < |s.rows| :: y !in s'.rows[i])
            && forall x | x in s.ctl && x != y :: s'.ctl[x] == s.ctl[x]
  {
    hide Del;
    forall i | 0 <= i < |s.rows| ensures y !in DelRows(s.rows, y)[i] { DelMember(s.rows[i], y); }
  }

  /** The calls that leave timer `y` a timer that is not armed again: they do not start it or make it
      periodic; its own callback may stop it, and if it does so each time (`stops`) it may be periodic. */
  predicate Leaves(c: Cmd, y: Id, own: bool, stops: bool) {
    c.x != y || c.SetTime? || (c.SetPeriodic? && (stops || !c.on)) || (c.Stop? && own)
  }

  ghost predicate Ending(cb: Callback, y: Id, stops: bool) {
    && (forall t, i | 0 <= i < |cb(t)| :: Leaves(cb(t)[i], y, t == y, stops))
    && (stops ==> Stop(y) in cb(y))
  }

  ghost predicate LeftAlone(ops: seq<Op>, y: Id, stops: bool) {
    forall i | 0 <= i < |ops| :: if ops[i].Do? then Leaves(ops[i].c, y, false, stops) else Ending(ops[i].cb, y, stops)
  }

  /** Timer `y` runs, and will not be armed again. */
  ghost predicate Shot(s: Sys, y: Id, stops: bool) { y in s.ctl && s.ctl[y].active && (stops || !s.ctl[y].periodic) }

  lemma {:induction false} EndingIs(cb: Callback, y: Id, stops: bool)
    requires Ending(cb, y, stops)
    ensures NoStart(cb, y) && Spared(cb, y)
  {
    forall t ensures Start(y) !in cb(t) && (t != y ==> Stop(y) !in cb(t)) {
      forall i | 0 <= i < |cb(t)| ensures cb(t)[i] != Start(y) && (t != y ==> cb(t)[i] != Stop(y)) {
        assert Leaves(cb(t)[i], y, t == y, stops);
      }
    }
  }

  lemma {:induction false} ApplyAllShot(s: Sys, cs: seq<Cmd>, y: Id, stops: bool)
    requires |s.rows| >= 1 && Shot(s, y, stops) && forall i | 0 <= i < |cs| :: Leaves(cs[i], y, false, stops)
    ensures Shot(ApplyAll(s, cs), y, stops)
    decreases |cs|
  {
    if cs != [] { ApplyAllShot(Apply(s, cs[0]), cs[1..], y, stops); }
  }

  /** After its own callback a timer that is not armed again is not both periodic and active. */
  lemma {:induction false} OwnShot(s: Sys, cs: seq<Cmd>, y: Id, stops: bool)
    requires |s.rows| >= 1 && y in s.ctl && (stops || !s.ctl[y].periodic)
    requires forall i | 0 <= i < |cs| :: Leaves(cs[i], y, true, stops)
    ensures var s' := ApplyAll(s, cs);
            && y in s'.ctl && (stops || !s'.ctl[y].periodic) && (Off(s, y) ==> Off(s', y))
            && (Stop(y) in cs ==> Off(s', y))
    decreases |cs|
  {
    if cs != [] {
      assert cs == [cs[0]] + cs[1..];
      OwnShot(Apply(s, cs[0]), cs[1..], y, stops);
    }
  }

  lemma {:induction false} FireShot(s: Sys, cb: Callback, y: Id, stops: bool)
    requires |s.rows| >= 1 && Dense(s.rows) != [] && Shot(s, y, stops) && Ending(cb, y, stops)
    ensures if Dense(s.rows)[0] == y then Off(Fire(s, cb), y) else Shot(Fire(s, cb), y, stops)
  {
    hide Apply;
    var t := Dense(s.rows)[0];
    if t == y { OwnShot(Unlink(s, t), cb(t), y, stops); } else { ApplyAllShot(Unlink(s, t), cb(t), y, stops); }
  }

  /** A check in which it is expired fires it once and leaves it off. */
  lemma {:induction false} CheckShot(s: Sys, cb: Callback, n: nat, y: Id, stops: bool)
    requires Inv(s, s.now - 1, {}) && |s.rows| >= 1 && |Expired(s)| <= n && LegalCheck(s, cb, n)
    requires Shot(s, y, stops) && Ending(cb, y, stops) && y in Expired(s)
    ensures var s' := Check(s, cb, n); s.log <= s'.log && Since(s, s', y) == [s.now] && Off(s', y) && s'.now == s.now
    decreases n
  {
    hide Inv, Sub, Fire, LegalFire, Waits, Exp, Fired, Spared, Ending, Shot, Off, NoStart, Since, Nested;
    ShotFirst(s, cb, n, y, stops);
    var (t, s1, s') := (Expired(s)[0], Fire(s, cb), Check(s, cb, n));
    if t == y {
      CheckOff(s1, cb, n - 1, y);
      SinceJoin(s, s1, s', y);
      assert Since(s, s', y) == [s.now] + [];
    } else {
      CheckShot(s1, cb, n - 1, y, stops);
      SinceJoin(s, s1, s', y);
      assert Since(s, s', y) == [] + [s.now];
    }
  }

  /** The first expiry of such a check. */
  lemma {:induction false} ShotFirst(s: Sys, cb: Callback, n: nat, y: Id, stops: bool)
    requires Inv(s, s.now - 1, {}) && |s.rows| >= 1 && |Expired(s)| <= n && LegalCheck(s, cb, n)
    requires Shot(s, y, stops) && Ending(cb, y, stops) && y in Expired(s)
    ensures NoStart(cb, y) && Dense(s.rows) != [] && n > 0 && Expired(s)[0] == Dense(s.rows)[0]
    ensures var (t, s1) := (Expired(s)[0], Fire(s, cb));
            && Check(s, cb, n) == Check(s1, cb, n - 1)
            && Inv(s1, s1.now - 1, {}) && |Expired(s1)| <= n - 1 && LegalCheck(s1, cb, n - 1) && s1.now == s.now
            && s.log <= s1.log && Since(s, s1, y) == (if t == y then [s.now] else [])
            && if t == y then Off(s1, y) else Shot(s1, y, stops) && y in Expired(s1)
  {
    hide Inv, Sub, Fire, LegalFire, Waits, Exp, Fired, Spared, Ending, Shot, Off, NoStart, Since;
    UnlinkSound(s);
    FireSound(s, cb);
    EndingIs(cb, y, stops);
    FireShot(s, cb, y, stops);
    var (t, s1) := (Expired(s)[0], Fire(s, cb));
    SubLength(Expired(s1), Expired(s)[1..]);
    SinceOne(s, s1, t, y);
    if t != y { WaitsExpired(s, s1, y); }
  }

  lemma {:induction false} CheckKeepsShot(s: Sys, cb: Callback, n: nat, y: Id, stops: bool)
    requires Inv(s, s.now - 1, {}) && |s.rows| >= 1 && |Expired(s)| <= n && LegalCheck(s, cb, n)
    requires Shot(s, y, stops) && Ending(cb, y, stops) && y in Dense(s.rows) && y !in Expired(s)
    ensures Shot(Check(s, cb, n), y, stops)
    decreases n
  {
    hide Inv, Sub, Fire, LegalFire, Exp, Ending, Shot, Spared;
    if n > 0 && Expired(s) != [] {
      UnlinkSound(s);
      FireSound(s, cb);
      EndingIs(cb, y, stops);
      FireShot(s, cb, y, stops);
      var (t, s1) := (Expired(s)[0], Fire(s, cb));
      assert t in Expired(s);
      SubLength(Expired(s1), Expired(s)[1..]);
      SparedIs(cb, y, t);
      WaitsExpired(s, s1, y);
      WaitsIs(s, s1, y);
      CheckKeepsShot(s1, cb, n - 1, y, stops);
    }
  }

  ghost predicate Loaded(s: Sys, y: Id, stops: bool) {
    Good(s) && Shot(s, y, stops) && y in Dense(s.rows) && Key(s.due, y) > s.now
  }

  lemma {:induction false} CheckWaits(s: Sys, cb: Callback, n: nat, y: Id, stops: bool)
    requires Inv(s, s.now - 1, {}) && |s.rows| >= 1 && |Expired(s)| <= n && LegalCheck(s, cb, n)
    requires Shot(s, y, stops) && Ending(cb, y, stops) && y !in Expired(s) && y in Dense(s.rows)
    ensures var s' := Check(s, cb, n);
            && s.log <= s'.log && Since(s, s', y) == [] && Shot(s', y, stops) && s'.now == s.now
            && y in Dense(s'.rows) && Key(s'.due, y) == Key(s.due, y)
  {
    hide Inv, Sub, Fire, LegalFire, Exp, Fired, Spared, Ending, Shot, Since, Check, Silent, Expired;
    CheckSound(s, cb, n);
    EndingIs(cb, y, stops);
    var s' := Check(s, cb, n);
    FiredSilent(s, s', y);
    SinceSilent(s, s', y);
    CheckKeepsShot(s, cb, n, y, stops);
  }

  lemma {:induction false} StepShot(s: Sys, op: Op, y: Id, stops: bool)
    requires Loaded(s, y, stops) && Legal(s, op) && LeftAlone([op], y, stops)
    ensures var (s', d) := (Step(s, op), Key(s.due, y));
            && Good(s') && s.log <= s'.log && s.now <= s'.now
            && if s'.now < d then Since(s, s', y) == [] && Loaded(s', y, stops) && Key(s'.due, y) == d
               else Since(s, s', y) == [d] && Off(s', y) && s'.now == d
  {
    hide Nested, LegalCheck, LegalCmd, Check, Exp, Sub, Since, Ending, Waits, Inv;
    assert [op][0] == op;
    GoodInv(s);
    StepSound(s, op);
    match op
    case Do(c) =>
      ApplySound(s, c, s.now, 0, {});
      assert Waits(s, Apply(s, c), y);
      WaitsIs(s, Apply(s, c), y);
      SinceSilent(s, Apply(s, c), y);
    case Ticked(cb) =>
      var s1 := s.(now := s.now + 1);
      InvTicks(s);
      Due(s, y);
      if s1.now < Key(s.due, y) {
        DueLater(s1, y);
        CheckWaits(s1, cb, |Expired(s1)|, y, stops);
      } else {
        CheckShot(s1, cb, |Expired(s1)|, y, stops);
      }
      SinceSame(s, s1, Step(s, op), y);
  }

  lemma {:induction false} Due(s: Sys, y: Id)
    requires Good(s) && y in Dense(s.rows)
    ensures Key(s.due, y) == s.now + 1 ==> y in Expired(s.(now := s.now + 1))
  {
    hide Nested, Exp, Sub;
    NestedRows(s.rows, s.due);
    ExpMember(Dense(s.rows), s.due, s.now + 1, y);
  }

  /** A timer that is not armed again, one-shot or stopped by its own callback, expires exactly once: at its
      deadline.  From then on it is inactive and in no row. */
  lemma {:induction false} OneShotFires(s: Sys, ops: seq<Op>, y: Id, stops: bool)
    requires Loaded(s, y, stops) && LegalRun(s, ops) && LeftAlone(ops, y, stops)
    ensures var (s', d) := (Run(s, ops), Key(s.due, y));
            && s.log <= s'.log && Since(s, s', y) == (if s'.now < d then [] else [d])
            && if s'.now < d then Loaded(s', y, stops) && Key(s'.due, y) == d else Off(s', y) && y !in Dense(s'.rows)
    decreases |ops|
  {
    hide Legal, Step, Ending, Since, Good, Shot, Off;
    GoodInv(s);
    if ops == [] {
      SinceSelf(s, y);
    } else {
      var (op, s1, s', d) := (ops[0], Step(s, ops[0]), Run(s, ops), Key(s.due, y));
      assert [op][0] == op;
      StepShot(s, op, y, stops);
      GoodInv(s1);
      if s1.now < d {
        OneShotFires(s1, ops[1..], y, stops);
        SinceJoin(s, s1, s', y);
        assert [] + Since(s1, s', y) == Since(s1, s', y);
      } else {
        AloneUnstarted(ops[1..], y, stops);
        StoppedSilent(s1, ops[1..], y);
        SinceJoin(s, s1, s', y);
        assert Since(s, s', y) == [d] + [];
      }
    }
  }

  lemma {:induction false} AloneUnstarted(ops: seq<Op>, y: Id, stops: bool)
    requires LeftAlone(ops, y, stops)
    ensures Unstarted(ops, y)
  {
    hide Ending, NoStart;
    forall i | 0 <= i < |ops| ensures if ops[i].Do? then ops[i].c != Start(y) else NoStart(ops[i].cb, y) {
      if ops[i].Ticked? { EndingIs(ops[i].cb, y, stops); }
    }
  }

  /** rt_timer_control: what is set is what the next start goes by, and nothing else changes. */
  lemma {:induction false} SetThenStart(s: Sys, y: Id, n: nat, on: bool)
    requires |s.rows| >= 1 && Off(s, y)
    ensures var s1 := ApplyAll(s, [SetTime(y, n), SetPeriodic(y, on)]);
            && s1 == s.(ctl := s.ctl[y := Ctl(n, false, on)])
            && var s2 := Apply(s1, Start(y));
               Key(s2.due, y) == s.now + n && s2.ctl[y] == Ctl(n, true, on) && y in Dense(s2.rows)
  {
    hide Height;
    var cs := [SetTime(y, n), SetPeriodic(y, on)];
    assert cs[1..] == [SetPeriodic(y, on)] && cs[1..][1..] == [];
    var s1 := Apply(Apply(s, cs[0]), cs[1]);
    assert ApplyAll(s1, []) == s1;
    assert ApplyAll(Apply(s, cs[0]), cs[1..]) == s1;
    var s2 := Apply(s1, Start(y));
    InsMember(Dense(s1.rows), y, s2.due);
  }
}
