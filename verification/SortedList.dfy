/** Lists of ids kept in the order of a key: timers by deadline, waiting threads by priority. */
module SortedList {
  import opened Seqs

  type Id = nat

  function Key(key: map<Id, int>, x: Id): int { if x in key then key[x] else 0 }

  ghost predicate Sorted(row: seq<Id>, key: map<Id, int>) {
    forall i, j | 0 <= i < j < |row| :: Key(key, row[i]) <= Key(key, row[j])
  }

  /** `a` is `b` with some entries left out. */
  ghost predicate Sub(a: seq<Id>, b: seq<Id>)
    decreases |b|
  {
    a == [] || (b != [] && if a[0] == b[0] then Sub(a[1..], b[1..]) else Sub(a, b[1..]))
  }

  /** Sorted insertion behind every entry with the same key. */
  function Ins(row: seq<Id>, x: Id, key: map<Id, int>): seq<Id> {
    if row == [] then [x]
    else if Key(key, row[0]) <= Key(key, x) then [row[0]] + Ins(row[1..], x, key)
    else [x] + row
  }

  function Del(row: seq<Id>, x: Id): seq<Id> {
    if row == [] then [] else if row[0] == x then Del(row[1..], x) else [row[0]] + Del(row[1..], x)
  }

  /** Removal from several lists at once. */
  function DelRows(rows: seq<seq<Id>>, x: Id): (r: seq<seq<Id>>)
    ensures |r| == |rows|
  {
    seq(|rows|, i requires 0 <= i < |rows| => Del(rows[i], x))
  }

  // ---- one list ----

  lemma {:induction false} SubMember(a: seq<Id>, b: seq<Id>, x: Id)
    requires Sub(a, b) && x in a
    ensures x in b
    decreases |b|
  {
    if a[0] == b[0] {
      if x != a[0] { SubMember(a[1..], b[1..], x); }
    } else {
      SubMember(a, b[1..], x);
    }
  }

  lemma {:induction false} SubSelf(a: seq<Id>)
    ensures Sub(a, a)
    decreases |a|
  {
    if a != [] { SubSelf(a[1..]); }
  }

  lemma {:induction false} SubTrans(a: seq<Id>, b: seq<Id>, c: seq<Id>)
    requires Sub(a, b) && Sub(b, c)
    ensures Sub(a, c)
    decreases |c|
  {
    if a != [] {
      if b[0] == c[0] {
        if a[0] == b[0] { SubTrans(a[1..], b[1..], c[1..]); } else { SubTrans(a, b[1..], c[1..]); }
      } else {
        SubTrans(a, b, c[1..]);
        SubTail(a, c);
      }
    }
  }

  lemma {:induction false} SubTail(a: seq<Id>, b: seq<Id>)
    requires b != [] && Sub(a, b[1..])
    ensures Sub(a, b)
    decreases |b|, 0
  {
    if a != [] && a[0] == b[0] { SubDrop(a, b[1..]); }
  }

  lemma {:induction false} SubDrop(a: seq<Id>, b: seq<Id>)
    requires a != [] && Sub(a, b)
    ensures Sub(a[1..], b)
    decreases |b|, 1
  {
    if a[0] == b[0] { SubTail(a[1..], b); } else { SubDrop(a, b[1..]); SubTail(a[1..], b); }
  }

  lemma {:induction false} InsMember(row: seq<Id>, x: Id, key: map<Id, int>)
    ensures forall y :: y in Ins(row, x, key) <==> y == x || y in row
    decreases |row|
  {
    if row != [] && Key(key, row[0]) <= Key(key, x) {
      InsMember(row[1..], x, key);
      assert row == [row[0]] + row[1..];
    }
  }

  lemma {:induction false} DelMember(row: seq<Id>, x: Id)
    ensures forall y :: y in Del(row, x) <==> y in row && y != x
    decreases |row|
  {
    if row != [] {
      DelMember(row[1..], x);
      assert row == [row[0]] + row[1..];
    }
  }

  /** The inserted entry stands behind everything with a key no greater and before everything with a greater key. */
  lemma {:induction false} InsAt(row: seq<Id>, x: Id, key: map<Id, int>, p: nat)
    requires p <= |row| && (forall j | 0 <= j < p :: Key(key, row[j]) <= Key(key, x))
    requires p < |row| ==> Key(key, row[p]) > Key(key, x)
    ensures Ins(row, x, key) == row[..p] + [x] + row[p..]
    decreases p
  {
    if p > 0 {
      InsAt(row[1..], x, key, p - 1);
      assert row[..p] == [row[0]] + row[1..][..p - 1];
    }
  }

  lemma {:induction false} InsPlace(row: seq<Id>, x: Id, key: map<Id, int>) returns (p: nat)
    requires Sorted(row, key)
    ensures p <= |row| && Ins(row, x, key) == row[..p] + [x] + row[p..]
    ensures forall j | 0 <= j < p :: Key(key, row[j]) <= Key(key, x)
    ensures forall j | p <= j < |row| :: Key(key, row[j]) > Key(key, x)
  {
    p := 0;
    while p < |row| && Key(key, row[p]) <= Key(key, x)
      invariant p <= |row| && forall j | 0 <= j < p :: Key(key, row[j]) <= Key(key, x)
    {
      p := p + 1;
    }
    InsAt(row, x, key, p);
  }

  lemma {:induction false} InsKeeps(row: seq<Id>, x: Id, key: map<Id, int>)
    requires Sorted(row, key) && Distinct(row) && x !in row
    ensures Sorted(Ins(row, x, key), key) && Distinct(Ins(row, x, key))
  {
    var p := InsPlace(row, x, key);
  }

  lemma {:induction false} InsDistinct(row: seq<Id>, x: Id, key: map<Id, int>)
    requires Distinct(row) && x !in row
    ensures Distinct(Ins(row, x, key))
    decreases |row|
  {
    if row != [] && Key(key, row[0]) <= Key(key, x) {
      InsDistinct(row[1..], x, key);
      InsMember(row[1..], x, key);
      assert row == [row[0]] + row[1..];
      assert row[0] !in row[1..];
    }
  }

  lemma {:induction false} DelIsSub(row: seq<Id>, x: Id)
    ensures Sub(Del(row, x), row)
    decreases |row|
  {
    if row != [] {
      DelIsSub(row[1..], x);
      if row[0] == x { SubTail(Del(row, x), row); }
    }
  }

  lemma {:induction false} SubKeeps(a: seq<Id>, b: seq<Id>, key: map<Id, int>)
    requires Sub(a, b) && Sorted(b, key) && Distinct(b)
    ensures Sorted(a, key) && Distinct(a)
    decreases |b|
  {
    if a != [] {
      if a[0] == b[0] {
        SubKeeps(a[1..], b[1..], key);
        forall j | 0 < j < |a| ensures Key(key, a[0]) <= Key(key, a[j]) && a[0] != a[j] {
          SubMember(a[1..], b[1..], a[1..][j - 1]);
        }
        forall i, j | 0 < i < j < |a| ensures Key(key, a[i]) <= Key(key, a[j]) && a[i] != a[j] {
          assert a[i] == a[1..][i - 1] && a[j] == a[1..][j - 1];
        }
      } else {
        SubKeeps(a, b[1..], key);
      }
    }
  }

  lemma {:induction false} DelHead(row: seq<Id>)
    requires row != [] && Distinct(row)
    ensures Del(row, row[0]) == row[1..]
  {
    DelAbsent(row[1..], row[0]);
  }

  lemma {:induction false} DelAbsent(row: seq<Id>, x: Id)
    requires x !in row
    ensures Del(row, x) == row
    decreases |row|
  {
    if row != [] { DelAbsent(row[1..], x); }
  }

  lemma {:induction false} DelPrefix(q: seq<Id>, t: Id, n: nat)
    requires n <= |q| && t !in q[..n]
    ensures n <= |Del(q, t)| && Del(q, t)[..n] == q[..n]
    decreases n
  {
    if n > 0 {
      assert q[0] in q[..n] && q[1..][..n - 1] == q[..n][1..];
      DelPrefix(q[1..], t, n - 1);
      assert q[..n] == [q[0]] + q[1..][..n - 1];
    }
  }

  lemma {:induction false} SubDistinct(a: seq<Id>, b: seq<Id>)
    requires Sub(a, b) && Distinct(b)
    ensures Distinct(a)
  {
    assert Sorted(b, map[]);
    SubKeeps(a, b, map[]);
  }

  lemma {:induction false} SubLength(a: seq<Id>, b: seq<Id>)
    requires Sub(a, b)
    ensures |a| <= |b|
    decreases |b|
  {
    if a != [] {
      if a[0] == b[0] { SubLength(a[1..], b[1..]); } else { SubLength(a, b[1..]); }
    }
  }

  // ---- a list and its sublist ----

  lemma {:induction false} SubInsOne(a: seq<Id>, b: seq<Id>, x: Id, key: map<Id, int>)
    requires Sub(a, b)
    ensures Sub(a, Ins(b, x, key))
    decreases |b|
  {
    if a != [] {
      if Key(key, b[0]) <= Key(key, x) {
        if a[0] == b[0] { SubInsOne(a[1..], b[1..], x, key); } else { SubInsOne(a, b[1..], x, key); }
        assert Ins(b, x, key)[1..] == Ins(b[1..], x, key);
      } else {
        assert ([x] + b)[1..] == b;
        SubTail(a, [x] + b);
      }
    }
  }

  lemma {:induction false} SubInsBoth(a: seq<Id>, b: seq<Id>, x: Id, key: map<Id, int>)
    requires Sub(a, b) && Sorted(b, key) && x !in b
    ensures Sub(Ins(a, x, key), Ins(b, x, key))
    decreases |b|
  {
    var (a', b') := (Ins(a, x, key), Ins(b, x, key));
    if b == [] {
      SubSelf(b');
    } else if Key(key, b[0]) <= Key(key, x) {
      assert b'[1..] == Ins(b[1..], x, key);
      if a != [] && a[0] == b[0] {
        SubInsBoth(a[1..], b[1..], x, key);
        assert a'[1..] == Ins(a[1..], x, key);
      } else {
        SubInsBoth(a, b[1..], x, key);
      }
    } else {
      if a != [] {
        SubMember(a, b, a[0]);
      }
      assert a' == [x] + a && a'[1..] == a && b'[1..] == b;
    }
  }

  lemma {:induction false} SubDel(a: seq<Id>, b: seq<Id>, x: Id)
    requires Sub(a, b)
    ensures Sub(Del(a, x), Del(b, x))
    decreases |b|
  {
    if a != [] {
      var (a', b') := (Del(a, x), Del(b, x));
      if a[0] == b[0] {
        SubDel(a[1..], b[1..], x);
        if b[0] != x { assert a'[1..] == Del(a[1..], x) && b'[1..] == Del(b[1..], x); }
      } else {
        SubDel(a, b[1..], x);
        if b[0] != x {
          assert b'[1..] == Del(b[1..], x);
          SubTail(a', b');
        }
      }
    }
  }
}
