/** The rows of the timer skip list of src/timer.c. */
module TimerRows {
  import opened Seqs
  import opened SortedList

  // Row 0 is the sparsest, the last row holds every active timer.  A row lists timer ids; `due` gives each
  // timer's deadline in unbounded time.

  /** Rows of a skip list of any height: sorted, without repetition, each inside the next. */
  ghost predicate Nested(rows: seq<seq<Id>>, due: map<Id, int>) {
    && |rows| >= 1
    && (forall i | 0 <= i < |rows| :: Sorted(rows[i], due) && Distinct(rows[i]))
    && (forall i | 0 < i < |rows| :: Sub(rows[i - 1], rows[i]))
  }

  function Dense(rows: seq<seq<Id>>): seq<Id> { if rows == [] then [] else rows[|rows| - 1] }

  /** Insert into the `h` densest rows. */
  function InsRows(rows: seq<seq<Id>>, x: Id, due: map<Id, int>, h: nat): (r: seq<seq<Id>>)
    ensures |r| == |rows|
  {
    seq(|rows|, i requires 0 <= i < |rows| => if i >= |rows| - h then Ins(rows[i], x, due) else rows[i])
  }

  lemma {:induction false} NestedMember(rows: seq<seq<Id>>, due: map<Id, int>, i: nat, x: Id)
    requires Nested(rows, due) && i < |rows| && x in rows[i]
    ensures x in Dense(rows)
    decreases |rows| - i
  {
    if i + 1 < |rows| {
      SubMember(rows[i], rows[i + 1], x);
      NestedMember(rows, due, i + 1, x);
    }
  }

  /** Whatever the height given to the new timer, the rows stay nested and the densest row becomes
      the stable sorted insert. */
  lemma {:induction false} InsRowsNested(rows: seq<seq<Id>>, x: Id, due: map<Id, int>, h: nat)
    requires Nested(rows, due) && x !in Dense(rows) && 1 <= h
    ensures Nested(InsRows(rows, x, due, h), due)
    ensures Dense(InsRows(rows, x, due, h)) == Ins(Dense(rows), x, due)
  {
    hide Sub, Sorted, Distinct, Ins;
    var r := InsRows(rows, x, due, h);
    forall i | 0 <= i < |rows| ensures x !in rows[i] && Sorted(r[i], due) && Distinct(r[i]) {
      if x in rows[i] { NestedMember(rows, due, i, x); }
      InsKeeps(rows[i], x, due);
    }
    forall i | 0 < i < |rows| ensures Sub(r[i - 1], r[i]) {
      assert Sub(rows[i - 1], rows[i]);
      if i - 1 >= |rows| - h {
        SubInsBoth(rows[i - 1], rows[i], x, due);
      } else if i >= |rows| - h {
        SubInsOne(rows[i - 1], rows[i], x, due);
      }
    }
  }

  lemma {:induction false} DelRowsNested(rows: seq<seq<Id>>, x: Id, due: map<Id, int>)
    requires Nested(rows, due)
    ensures Nested(DelRows(rows, x), due)
    ensures Dense(DelRows(rows, x)) == Del(Dense(rows), x)
  {
    hide Sub, Sorted, Distinct, Del;
    var r := DelRows(rows, x);
    forall i | 0 <= i < |rows| ensures Sorted(r[i], due) && Distinct(r[i]) {
      DelIsSub(rows[i], x);
      SubKeeps(r[i], rows[i], due);
    }
    forall i | 0 < i < |rows| ensures Sub(r[i - 1], r[i]) {
      SubDel(rows[i - 1], rows[i], x);
    }
  }

  /** A deadline change of a timer outside the rows does not disturb them. */
  lemma {:induction false} NestedFrame(rows: seq<seq<Id>>, due: map<Id, int>, x: Id, d: int)
    requires Nested(rows, due) && x !in Dense(rows)
    ensures Nested(rows, due[x := d])
  {
    forall i | 0 <= i < |rows| ensures Sorted(rows[i], due[x := d]) {
      if x in rows[i] { NestedMember(rows, due, i, x); }
    }
  }
}
