/** The 32-bit integer fragment of the finsh expression language: what an expression means, and the
    byte code the compiler emits for it. */
module FinshLang {
  import Binary = Bits

  type Word = w: int | 0 <= w < 0x1_0000_0000
  type Byte = b: int | 0 <= b < 0x100
  type Memory = map<Word, Word>

  datatype BinOp = Add | Sub | Mul | Div | Mod | And | Or | Xor | Shl | Shr

  /** A variable is known by the address of its long_value. */
  datatype Expr =
    | Lit(value: Word)
    | Var(addr: Word)
    | Bin(op: BinOp, left: Expr, right: Expr)
    | Not(arg: Expr)
    | Assign(addr: Word, rhs: Expr)
    | Step(addr: Word, up: bool, post: bool)

  // ---- 32-bit arithmetic ----

  /** The answer of the hardware where C leaves the result of a signed operation undefined. */
  type Undefined = (BinOp, Word, Word) -> Word

  function Wrap(n: int): Word { n % 0x1_0000_0000 }

  function Signed(w: Word): int { if w < 0x8000_0000 then w else w - 0x1_0000_0000 }

  /** Division truncates toward zero. */
  function Quotient(a: int, b: int): int
    requires b != 0
  {
    var q := (if a < 0 then -a else a) / (if b < 0 then -b else b);
    if (a < 0) == (b < 0) then q else -q
  }

  function Bits(op: BinOp, a: nat, b: nat): nat
    decreases a + b
  {
    if a == 0 && b == 0 then 0
    else
      var (x, y) := (a % 2 == 1, b % 2 == 1);
      var bit := if op == And then x && y else if op == Or then x || y else x != y;
      (if bit then 1 else 0) + 2 * Bits(op, a / 2, b / 2)
  }

  function Alu(u: Undefined, op: BinOp, a: Word, b: Word): Word {
    match op
    case Add => Wrap(a + b)
    case Sub => Wrap(a - b)
    case Mul => Wrap(a * b)
    case Div =>
      if b == 0 || (a == 0x8000_0000 && b == 0xffff_ffff) then u(op, a, b) else Wrap(Quotient(Signed(a), Signed(b)))
    case Mod => if b == 0 || (a == 0x8000_0000 && b == 0xffff_ffff) then u(op, a, b)
                else Wrap(Signed(a) - Quotient(Signed(a), Signed(b)) * Signed(b))
    case And => Wrap(Bits(op, a, b))
    case Or => Wrap(Bits(op, a, b))
    case Xor => Wrap(Bits(op, a, b))
    case Shl => if b >= 32 then u(op, a, b) else Wrap(a * Binary.Pow2(b))
    case Shr => if b >= 32 then u(op, a, b) else Wrap(Signed(a) / Binary.Pow2(b))
  }

  function Complement(w: Word): Word { 0xffff_ffff - w }

  // ---- meaning ----

  /** Every variable of the expression is in memory. */
  ghost predicate Bound(e: Expr, m: Memory) {
    match e
    case Lit(_) => true
    case Var(a) => a in m
    case Bin(_, l, r) => Bound(l, m) && Bound(r, m)
    case Not(x) => Bound(x, m)
    case Assign(a, x) => a in m && Bound(x, m)
    case Step(a, _, _) => a in m
  }

  lemma BoundKeys(e: Expr, m: Memory, m': Memory)
    requires Bound(e, m) && m'.Keys == m.Keys
    ensures Bound(e, m')
  {
  }

  /** Left-to-right evaluation. */
  ghost function Eval(u: Undefined, e: Expr, m: Memory): (r: (Word, Memory))
    requires Bound(e, m)
    ensures r.1.Keys == m.Keys
  {
    match e
    case Lit(v) => (v, m)
    case Var(a) => (m[a], m)
    case Bin(op, l, r) =>
      var (x, m1) := Eval(u, l, m);
      BoundKeys(r, m, m1);
      var (y, m2) := Eval(u, r, m1);
      (Alu(u, op, x, y), m2)
    case Not(x) =>
      var (v, m1) := Eval(u, x, m);
      (Complement(v), m1)
    case Assign(a, x) =>
      var (v, m1) := Eval(u, x, m);
      (v, m1[a := v])
    case Step(a, up, post) =>
      var v := Alu(u, if up then Add else Sub, m[a], 1);
      (if post then m[a] else v, m[a := v])
  }

  ghost predicate AllBound(es: seq<Expr>, m: Memory) {
    forall i | 0 <= i < |es| :: Bound(es[i], m)
  }

  lemma AllBoundKeys(es: seq<Expr>, m: Memory, m': Memory)
    requires AllBound(es, m) && m'.Keys == m.Keys
    ensures AllBound(es, m')
  {
    forall i | 0 <= i < |es| ensures Bound(es[i], m') { BoundKeys(es[i], m, m'); }
  }

  /** The value of a statement list is the value of its last statement. */
  ghost function EvalList(u: Undefined, es: seq<Expr>, m: Memory): (Word, Memory)
    requires es != [] && AllBound(es, m)
    decreases |es|
  {
    var (v, m1) := Eval(u, es[0], m);
    if |es| == 1 then (v, m1)
    else
      AllBoundKeys(es, m, m1);
      EvalList(u, es[1..], m1)
  }

  // ---- byte code ----

  const NOOP: Byte := 0x00
  const NOT: Byte := 0x1B
  const LD_DWORD: Byte := 0x24
  const LD_VALUE: Byte := 0x27
  const ST_DWORD: Byte := 0x2A
  const POP: Byte := 0x2B
  const LD_STACK: Byte := 0x2F

  function OpCode(op: BinOp): Byte {
    match op
    case Add => 0x03
    case Sub => 0x06
    case Div => 0x09
    case Mod => 0x0C
    case Mul => 0x0F
    case And => 0x12
    case Or => 0x15
    case Xor => 0x18
    case Shl => 0x1E
    case Shr => 0x21
  }

  /** FINSH_SET32: least significant byte first. */
  function Set32(w: Word): (s: seq<Byte>)
    ensures |s| == 4
  {
    [w % 0x100, w / 0x100 % 0x100, w / 0x1_0000 % 0x100, w / 0x100_0000]
  }

  function Get32(s: seq<Byte>): Word
    requires |s| == 4
  {
    s[0] as int + 0x100 * s[1] as int + 0x1_0000 * s[2] as int + 0x100_0000 * s[3] as int
  }

  lemma SetThenGet(w: Word)
    ensures Get32(Set32(w)) == w
  {
    var a := w / 0x100;
    var b := a / 0x100;
    var c := b / 0x100;
    assert w == 0x100 * a + w % 0x100 && a == 0x100 * b + a % 0x100 && b == 0x100 * c + b % 0x100;
    assert b == w / 0x1_0000 && c == w / 0x100_0000;
  }

  function Operand(op: Byte, w: Word): (s: seq<Byte>)
    ensures |s| == 5
  {
    [op] + Set32(w)
  }

  /** The code of `++` and `--` from the point where the address is on the stack. */
  function Bump(a: Word, up: bool): (s: seq<Byte>)
    ensures |s| == 12
  {
    Operand(LD_VALUE, a) + Operand(LD_DWORD, 1) + [OpCode(if up then Add else Sub), ST_DWORD]
  }

  function Code(e: Expr): seq<Byte> {
    match e
    case Lit(v) => Operand(LD_DWORD, v)
    case Var(a) => Operand(LD_VALUE, a)
    case Bin(op, l, r) => Code(l) + Code(r) + [OpCode(op)]
    case Not(x) => Code(x) + [NOT]
    case Assign(a, x) => Operand(LD_DWORD, a) + Code(x) + [ST_DWORD, LD_STACK]
    case Step(a, up, post) =>
      if post then Operand(LD_VALUE, a) + (Operand(LD_DWORD, a) + (Bump(a, up) + [POP]))
      else Operand(LD_DWORD, a) + (Bump(a, up) + [LD_STACK])
  }

  /** Statements separated by a pop. */
  function ListCode(es: seq<Expr>): seq<Byte> {
    if es == [] then [] else if |es| == 1 then Code(es[0]) else Code(es[0]) + [POP] + ListCode(es[1..])
  }

  /** Stack slots needed above the current top. */
  function Depth(e: Expr): nat {
    match e
    case Lit(_) => 1
    case Var(_) => 1
    case Bin(_, l, r) => var (x, y) := (Depth(l), 1 + Depth(r)); if x < y then y else x
    case Not(x) => Depth(x)
    case Assign(_, x) => 1 + Depth(x)
    case Step(_, _, post) => if post then 4 else 3
  }
}
