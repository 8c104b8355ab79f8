/** What the word operations of components/finsh/finsh_ops.c compute, on integers and on bits, and what
    expressions mean on integers. */
module FinshWords {
  import opened FinshLang
  import opened Options
  import B = Bits

  const RANGE := 0x1_0000_0000

  predicate Fits(n: int) { -0x8000_0000 <= n < 0x8000_0000 }

  // ---- words as integers ----

  lemma {:induction false} SameRest(a: int, k: int)
    ensures (a + k * RANGE) % RANGE == a % RANGE
  {
  }

  lemma {:induction false} SignedRest(w: Word)
    ensures Signed(w) % RANGE == w && Fits(Signed(w))
  {
    SameRest(Signed(w), 1);
  }

  lemma {:induction false} WrapSigned(n: int)
    ensures Signed(Wrap(n)) % RANGE == n % RANGE && (Fits(n) ==> Signed(Wrap(n)) == n)
  {
    SignedRest(Wrap(n));
    if Fits(n) && n < 0 { SameRest(n, 1); }
  }

  lemma {:induction false} TimesRest(a: int, b: int, c: int, d: int)
    ensures ((a + b * RANGE) * (c + d * RANGE)) % RANGE == (a * c) % RANGE
  {
    var k := a * d + b * c + b * d * RANGE;
    assert (a + b * RANGE) * (c + d * RANGE) == a * c + k * RANGE;
    SameRest(a * c, k);
  }

  /** The integer result of an operator, where it has one that is not about bits. */
  function Arith(op: BinOp, x: int, y: int): Option<int> {
    match op
    case Add => Some(x + y)
    case Sub => Some(x - y)
    case Mul => Some(x * y)
    case Div => if y == 0 then None else Some(Truncated(x, y))
    case Mod => if y == 0 || !Fits(Truncated(x, y)) then None else Some(x - y * Truncated(x, y))
    case Shl => if 0 <= y < 32 then Some(x * B.Pow2(y)) else None
    case Shr => if 0 <= y < 32 then Some(x / B.Pow2(y)) else None
    case _ => None
  }

  function Truncated(x: int, y: int): int
    requires y != 0
  {
    if x >= 0 then x / y else -(-x / y)
  }

  /** Sums, differences and products are the integer ones up to multiples of 2 to the 32, and exact when
      those fit. */
  lemma {:induction false} AddSubMul(u: Undefined, op: BinOp, a: Word, b: Word)
    requires op in {Add, Sub, Mul}
    ensures var (r, n) := (Signed(Alu(u, op, a, b)), Arith(op, Signed(a), Signed(b)).value);
            r % RANGE == n % RANGE && (Fits(n) ==> r == n)
  {
    var (x, y) := (Signed(a), Signed(b));
    var (k, l) := (if a < 0x8000_0000 then 0 else 1, if b < 0x8000_0000 then 0 else 1);
    assert a == x + k * RANGE && b == y + l * RANGE;
    var n := Arith(op, x, y).value;
    match op {
      case Add => SameRest(n, k + l); WordIs(n, a + b);
      case Sub => SameRest(n, k - l); WordIs(n, a - b);
      case Mul => TimesRest(x, k, y, l); WordIs(n, a * b);
    }
  }

  lemma {:induction false} WordIs(n: int, v: int)
    requires v % RANGE == n % RANGE
    ensures Signed(Wrap(v)) % RANGE == n % RANGE && (Fits(n) ==> Signed(Wrap(v)) == n)
  {
    WrapSigned(n);
  }

  /** Adding undoes subtracting, for all words. */
  lemma {:induction false} SubThenAdd(u: Undefined, a: Word, b: Word)
    ensures Alu(u, Add, Alu(u, Sub, a, b), b) == a
  {
    if a < b { SameRest(a - b, 1); }
  }

  lemma {:induction false} DivideUp(a: nat, b: nat)
    requires b > 0
    ensures a == a / b * b + a % b && a % b < b
  {
  }

  function Size(x: int): nat { if x < 0 then -x else x }

  lemma {:induction false} QuotientTimes(x: int, y: int)
    requires y != 0
    ensures var p: int := Size(x) / Size(y) * Size(y); Quotient(x, y) * y == if x < 0 then -p else p
  {
    var (q: int, b: int) := (Size(x) / Size(y), Size(y));
    Signs(q, b);
  }

  lemma {:induction false} Signs(q: int, b: int)
    ensures -q * b == -(q * b) && q * -b == -(q * b) && -q * -b == q * b
  {
  }

  /** What is left by the quotient is smaller than the divisor and has the sign of the dividend. */
  lemma {:induction false} QuotientRest(x: int, y: int)
    requires y != 0
    ensures var r := x - Quotient(x, y) * y; Size(r) == Size(x) % Size(y) && (r == 0 || (r < 0) == (x < 0))
  {
    hide Quotient;
    DivideUp(Size(x), Size(y));
    QuotientTimes(x, y);
  }

  lemma {:induction false} QuotientFits(x: int, y: int)
    requires y != 0 && Fits(x) && Fits(y) && !(x == -0x8000_0000 && y == -1)
    ensures Fits(Quotient(x, y)) && Fits(x - Quotient(x, y) * y)
  {
    var (a, b) := (Size(x), Size(y));
    Smaller(a, b);
    if b >= 2 && a > 0 { LessThan(a, b); }
    QuotientRest(x, y);
    DivideUp(a, b);
    assert b == 1 ==> a / b == a;
  }

  lemma {:induction false} LessThan(a: nat, b: nat)
    requires a > 0 && b >= 2
    ensures a / b < a
  {
    DivideUp(a, b);
    if a / b >= a { B.Grows(a / b, 2, b); }
  }

  /** Where division is defined. */
  predicate Divides(a: Word, b: Word) { b != 0 && !(a == 0x8000_0000 && b == 0xffff_ffff) }

  /** Quotient and remainder: together they give the dividend, and the remainder is smaller than the divisor
      and has the sign of the dividend. */
  lemma {:induction false} DivMod(u: Undefined, a: Word, b: Word)
    requires Divides(a, b)
    ensures var (x, y, q, r) := (Signed(a), Signed(b), Signed(Alu(u, Div, a, b)), Signed(Alu(u, Mod, a, b)));
            x == q * y + r && Size(r) < Size(y) && (r == 0 || (r < 0) == (x < 0))
  {
    hide Quotient, Wrap, Fits;
    var (x, y) := (Signed(a), Signed(b));
    SignedRest(a);
    SignedRest(b);
    assert y != 0 && !(x == -0x8000_0000 && y == -1);
    QuotientRest(x, y);
    QuotientFits(x, y);
    var q := Quotient(x, y);
    WrapSigned(q);
    WrapSigned(x - q * y);
  }

  /** There is only one such quotient. */
  lemma {:induction false} OneQuotient(x: int, y: int, q: int, r: int)
    requires y != 0 && x == q * y + r && Size(r) < Size(y)
    requires r == 0 || (r < 0) == (x < 0)
    ensures q == Truncated(x, y)
  {
    if x >= 0 {
      assert r >= 0;
      Euclid(x, y, q, r);
    } else {
      assert -x == -q * y + -r && -r >= 0;
      Euclid(-x, y, -q, -r);
    }
  }

  lemma {:induction false} Euclid(x: int, y: int, q: int, r: int)
    requires y != 0 && x == q * y + r && 0 <= r < Size(y)
    ensures x / y == q
  {
    var d := x / y - q;
    assert x == x / y * y + x % y;
    assert d * y == r - x % y;
    if d >= 1 { Farther(d, y); } else if d <= -1 { Farther(-d, y); }
  }

  lemma {:induction false} Farther(d: int, y: int)
    requires d >= 1
    ensures if y < 0 then d * y <= y else d * y >= y
  {
  }

  // ---- words as bits ----

  lemma {:induction false} High(v: nat, n: nat, i: nat)
    requires v < B.Pow2(n) && n <= i
    ensures !B.Bit(v, i)
    decreases i
  {
    if n == 0 {
      B.ZeroBit(i);
    } else {
      High(v / 2, n - 1, i - 1);
    }
  }

  lemma {:induction false} BitsBelow(op: BinOp, a: nat, b: nat, n: nat)
    requires a < B.Pow2(n) && b < B.Pow2(n)
    ensures Bits(op, a, b) < B.Pow2(n)
    decreases n
  {
    if n > 0 { BitsBelow(op, a / 2, b / 2, n - 1); }
  }

  function Joined(op: BinOp, x: bool, y: bool): bool {
    match op
    case And => x && y
    case Or => x || y
    case _ => x != y
  }

  lemma {:induction false} BitsAt(op: BinOp, a: nat, b: nat, i: nat)
    requires op in {And, Or, Xor}
    ensures B.Bit(Bits(op, a, b), i) <==> Joined(op, B.Bit(a, i), B.Bit(b, i))
    decreases i
  {
    if a == 0 && b == 0 {
      B.ZeroBit(i);
    } else {
      var (x, y) := (a % 2 == 1, b % 2 == 1);
      B.Parts(Bits(op, a / 2, b / 2), if Joined(op, x, y) then 1 else 0);
      if i > 0 { BitsAt(op, a / 2, b / 2, i - 1); }
    }
  }

  lemma {:induction false} Widest()
    ensures B.Pow2(32) == RANGE && B.Pow2(31) == 0x8000_0000
  {
    assert B.Pow2(8) == 0x100;
    assert B.Pow2(16) == 0x1_0000;
    assert B.Pow2(24) == 0x100_0000;
  }

  /** `&`, `|` and `^` bit by bit. */
  lemma {:induction false} LogicBits(u: Undefined, op: BinOp, a: Word, b: Word, i: nat)
    requires op in {And, Or, Xor}
    ensures B.Bit(Alu(u, op, a, b), i) <==> Joined(op, B.Bit(a, i), B.Bit(b, i))
  {
    hide Bits, B.Pow2, B.Bit;
    Widest();
    BitsBelow(op, a, b, 32);
    BitsAt(op, a, b, i);
  }

  lemma {:induction false} NotAt(w: nat, n: nat, i: nat)
    requires w < B.Pow2(n) && i < n
    ensures B.Bit(B.Pow2(n) - 1 - w, i) <==> !B.Bit(w, i)
    decreases i
  {
    var v := B.Pow2(n) - 1 - w;
    assert v / 2 == B.Pow2(n - 1) - 1 - w / 2 && v % 2 == 1 - w % 2;
    if i > 0 { NotAt(w / 2, n - 1, i - 1); }
  }

  /** `~` turns every bit over. */
  lemma {:induction false} NotBits(w: Word, i: nat)
    requires i < 32
    ensures B.Bit(Complement(w), i) <==> !B.Bit(w, i)
  {
    hide B.Pow2, B.Bit;
    Widest();
    NotAt(w, 32, i);
  }

  lemma {:induction false} RestAt(v: nat, n: nat, i: nat)
    requires i < n
    ensures B.Bit(v % B.Pow2(n), i) <==> B.Bit(v, i)
    decreases i
  {
    var p := B.Pow2(n - 1);
    B.Halves(v, p);
    B.Parts(v / 2 % p, v % 2);
    if i > 0 { RestAt(v / 2, n - 1, i - 1); }
  }

  lemma {:induction false} UpAt(v: nat, k: nat, i: nat)
    ensures B.Bit(v * B.Pow2(k), i) <==> i >= k && B.Bit(v, i - k)
    decreases k
  {
    if k == 0 {
      assert v * B.Pow2(0) == v;
    } else {
      var p := B.Pow2(k - 1);
      assert v * B.Pow2(k) == 2 * (v * p) + 0;
      B.Parts(v * p, 0);
      if i > 0 { UpAt(v, k - 1, i - 1); }
    }
  }

  /** The bits above the lowest `k`. */
  lemma {:induction false} DownAt(v: nat, k: nat, q: nat, r: nat, i: nat)
    requires v == q * B.Pow2(k) + r && r < B.Pow2(k)
    ensures B.Bit(q, i) <==> B.Bit(v, i + k)
    decreases k
  {
    hide B.Bit;
    if k > 0 {
      var p := B.Pow2(k - 1);
      assert q * B.Pow2(k) == 2 * (q * p);
      DownAt(v / 2, k - 1, q, r / 2, i);
      NextBit(v, i + k);
    }
  }

  lemma {:induction false} DownIs(v: nat, p: nat) returns (q: nat, r: nat)
    requires p > 0
    ensures q == v / p && v == q * p + r && r < p
  {
    DivideUp(v, p);
    q, r := v / p, v % p;
  }

  lemma {:induction false} NextBit(v: nat, i: nat)
    requires i > 0
    ensures B.Bit(v, i) == B.Bit(v / 2, i - 1)
  {
  }

  /** `<<` moves every bit up and drops those beyond the word. */
  lemma {:induction false} ShlBits(u: Undefined, a: Word, k: Word, i: nat)
    requires k < 32 && i < 32
    ensures B.Bit(Alu(u, Shl, a, k), i) <==> i >= k && B.Bit(a, i - k)
  {
    hide B.Pow2, B.Bit;
    Widest();
    RestAt(a * B.Pow2(k), 32, i);
    UpAt(a, k, i);
  }

  lemma {:induction false} FloorNegative(c: int, p: int)
    requires c >= 0 && p > 0
    ensures (-c - 1) / p == -(c / p) - 1
  {
    var (q, r) := (c / p, c % p);
    assert c == q * p + r;
    assert -c - 1 == (-q - 1) * p + (p - 1 - r);
    Euclid(-c - 1, p, -q - 1, p - 1 - r);
  }

  /** A negative word is shifted by way of its complement. */
  lemma {:induction false} ShrWord(u: Undefined, a: Word, k: Word) returns (q: nat, r: nat)
    requires k < 32
    ensures var c := if a < 0x8000_0000 then a else Complement(a);
            && c == q * B.Pow2(k) + r && r < B.Pow2(k) && q <= c < 0x8000_0000
            && Alu(u, Shr, a, k) == if a < 0x8000_0000 then q else Complement(q)
  {
    hide B.Pow2;
    var (c, p) := (if a < 0x8000_0000 then a else Complement(a), B.Pow2(k));
    Smaller(c, p);
    q, r := DownIs(c, p);
    if a >= 0x8000_0000 {
      FloorNegative(c, p);
      SameRest(0 - q - 1, 1);
    }
  }

  /** `>>` moves every bit down and fills up with the sign. */
  lemma {:induction false} ShrBits(u: Undefined, a: Word, k: Word, i: nat)
    requires k < 32 && i < 32
    ensures B.Bit(Alu(u, Shr, a, k), i) <==> B.Bit(a, if i + k < 32 then i + k else 31)
  {
    hide B.Pow2, B.Bit, Alu;
    Widest();
    var q, r := ShrWord(u, a, k);
    var c := if a < 0x8000_0000 then a else Complement(a);
    DownAt(c, k, q, r, i);
    NotBits(q, i);
    NotBits(a, if i + k < 32 then i + k else 31);
    if i + k >= 31 {
      High(c, 31, i + k);
      High(c, 31, 31);
    }
  }

  lemma {:induction false} Smaller(c: nat, p: nat)
    requires p > 0
    ensures c / p <= c
  {
    DivideUp(c, p);
    if c / p > c { B.Grows(c / p, 1, p); }
  }

  // ---- expressions on integers ----

  type Numbers = map<Word, int>

  ghost function Numeric(m: Memory): Numbers { map a | a in m :: Signed(m[a]) }

  /** The value of an expression by integer arithmetic, and the variables after it; None when a result on
      the way does not fit 32 bits, is undefined, or is one of `&`, `|` and `^`. */
  ghost function Value(e: Expr, m: Numbers): Option<(int, Numbers)> {
    match e
    case Lit(v) => Some((Signed(v), m))
    case Var(a) => if a in m then Some((m[a], m)) else None
    case Bin(op, l, r) =>
      var x := Value(l, m);
      if x.None? then None
      else
        var y := Value(r, x.value.1);
        if y.None? then None
        else
          var n := Arith(op, x.value.0, y.value.0);
          if n.Some? && Fits(n.value) then Some((n.value, y.value.1)) else None
    case Not(x) =>
      var v := Value(x, m);
      if v.None? then None else Some((-v.value.0 - 1, v.value.1))
    case Assign(a, x) =>
      var v := Value(x, m);
      if v.None? then None else Some((v.value.0, v.value.1[a := v.value.0]))
    case Step(a, up, post) =>
      if a !in m || !Fits(if up then m[a] + 1 else m[a] - 1) then None
      else
        var n := if up then m[a] + 1 else m[a] - 1;
        Some((if post then m[a] else n, m[a := n]))
  }

  lemma {:induction false} ShlIs(u: Undefined, a: Word, k: Word)
    requires k < 32 && Fits(Signed(a) * B.Pow2(k))
    ensures Signed(Alu(u, Shl, a, k)) == Signed(a) * B.Pow2(k)
  {
    hide B.Pow2;
    var (x, p) := (Signed(a), B.Pow2(k));
    var s := if a < 0x8000_0000 then 0 else 1;
    assert a * p == (x + s * RANGE) * (p + 0 * RANGE);
    TimesRest(x, s, p, 0);
    WordIs(x * p, a * p);
  }

  lemma {:induction false} ArithIs(u: Undefined, op: BinOp, a: Word, b: Word)
    requires var n := Arith(op, Signed(a), Signed(b)); n.Some? && Fits(n.value)
    ensures Signed(Alu(u, op, a, b)) == Arith(op, Signed(a), Signed(b)).value
  {
    hide B.Pow2, Quotient, Wrap;
    var (x, y) := (Signed(a), Signed(b));
    match op {
      case Add => AddSubMul(u, op, a, b);
      case Sub => AddSubMul(u, op, a, b);
      case Mul => AddSubMul(u, op, a, b);
      case Div => DivIs(u, a, b);
      case Mod => DivIs(u, a, b);
      case Shl => ShlIs(u, a, b);
      case Shr => WrapSigned(x / B.Pow2(b));
    }
  }

  lemma {:induction false} DivIs(u: Undefined, a: Word, b: Word)
    requires Signed(b) != 0
    ensures var (x, y) := (Signed(a), Signed(b));
            && (Fits(Truncated(x, y)) ==> Divides(a, b))
            && (Divides(a, b) ==> Signed(Alu(u, Div, a, b)) == Truncated(x, y)
                                  && Signed(Alu(u, Mod, a, b)) == x - y * Truncated(x, y))
  {
    hide Quotient, Wrap;
    if Divides(a, b) {
      DivMod(u, a, b);
      OneQuotient(Signed(a), Signed(b), Signed(Alu(u, Div, a, b)), Signed(Alu(u, Mod, a, b)));
    } else {
      assert Truncated(-0x8000_0000, -1) == 0x8000_0000;
    }
  }

  lemma {:induction false} NotIs(w: Word)
    ensures Signed(Complement(w)) == -Signed(w) - 1
  {
  }

  /** Evaluation on 32-bit words is integer arithmetic wherever that has an answer that fits: the value, and
      what assignments, `++` and `--` leave in the variables. */
  lemma {:induction false} ValueIs(u: Undefined, e: Expr, m: Memory)
    requires Bound(e, m) && Value(e, Numeric(m)).Some?
    ensures var ((v, m'), (n, r)) := (Eval(u, e, m), Value(e, Numeric(m)).value);
            Signed(v) == n && Numeric(m') == r
    decreases e
  {
    hide Alu, Complement, Signed, Arith;
    match e
    case Lit(v) =>
    case Var(a) =>
    case Bin(op, l, r) =>
      ValueIs(u, l, m);
      var (x, m1) := Eval(u, l, m);
      BoundKeys(r, m, m1);
      ValueIs(u, r, m1);
      var (y, m2) := Eval(u, r, m1);
      ArithIs(u, op, x, y);
    case Not(x) =>
      ValueIs(u, x, m);
      NotIs(Eval(u, x, m).0);
    case Assign(a, x) => ValueIs(u, x, m);
    case Step(a, up, post) => StepIs(u, m, a, up);
  }

  lemma {:induction false} StepIs(u: Undefined, m: Memory, a: Word, up: bool)
    requires a in m
    ensures var (x, v) := (Signed(m[a]), Alu(u, if up then Add else Sub, m[a], 1));
            var n := if up then x + 1 else x - 1;
            Fits(n) ==> Signed(v) == n && Numeric(m[a := v]) == Numeric(m)[a := n]
  {
    hide Alu;
    AddSubMul(u, if up then Add else Sub, m[a], 1);
  }

  /** A line of statements on integers: each works on the variables the one before left. */
  ghost function LineValue(es: seq<Expr>, m: Numbers): Option<(int, Numbers)>
    requires es != []
    decreases |es|
  {
    var v := Value(es[0], m);
    if v.None? || |es| == 1 then v else LineValue(es[1..], v.value.1)
  }

  /** The answer of the shell to a line is its integer value, where it has one that fits. */
  lemma {:induction false} LineIs(u: Undefined, es: seq<Expr>, m: Memory)
    requires es != [] && AllBound(es, m) && LineValue(es, Numeric(m)).Some?
    ensures var ((v, m'), (n, r)) := (EvalList(u, es, m), LineValue(es, Numeric(m)).value);
            Signed(v) == n && Numeric(m') == r
    decreases |es|
  {
    hide Value, Eval, Signed, Numeric;
    ValueIs(u, es[0], m);
    if |es| > 1 {
      var m1 := Eval(u, es[0], m).1;
      AllBoundKeys(es, m, m1);
      LineIs(u, es[1..], m1);
    }
  }
}
