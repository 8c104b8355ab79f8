/** The stack machine of components/finsh/finsh_vm.c and finsh_ops.c, and the proof that running the
    emitted bytes does what the expressions mean. */
module FinshVm {
  import opened FinshLang
  import opened Options

  const STACK_MAX := 64
  const TEXT_MAX := 128

  datatype State = State(stack: seq<Word>, mem: Memory)

  function BinOf(op: Byte): Option<BinOp> {
    if op == 0x03 then Some(Add) else if op == 0x06 then Some(Sub) else if op == 0x09 then Some(Div)
    else if op == 0x0C then Some(Mod) else if op == 0x0F then Some(Mul) else if op == 0x12 then Some(And)
    else if op == 0x15 then Some(Or) else if op == 0x18 then Some(Xor) else if op == 0x1E then Some(Shl)
    else if op == 0x21 then Some(Shr) else None
  }

  function Push(st: State, w: Word): Option<State> {
    if |st.stack| < STACK_MAX then Some(st.(stack := st.stack + [w])) else None
  }

  /** The effect of an operation without operand bytes; None outside the fragment or when the machine
      would leave its stack or read or write a word it does not own. */
  function Simple(u: Undefined, op: Byte, st: State): Option<State> {
    var n := |st.stack|;
    if op == NOOP then Some(st)
    else if BinOf(op).Some? then
      if n < 2 then None
      else Some(st.(stack := st.stack[..n - 2] + [Alu(u, BinOf(op).value, st.stack[n - 2], st.stack[n - 1])]))
    else if n == 0 then None
    else if op == NOT then Some(st.(stack := st.stack[..n - 1] + [Complement(st.stack[n - 1])]))
    else if op == POP then Some(st.(stack := st.stack[..n - 1]))
    else if op == LD_STACK then
      if st.stack[n - 1] in st.mem then Some(st.(stack := st.stack[..n - 1] + [st.mem[st.stack[n - 1]]])) else None
    else if op == ST_DWORD && n >= 2 && st.stack[n - 2] in st.mem then
      Some(State(st.stack[..n - 1], st.mem[st.stack[n - 2] := st.stack[n - 1]]))
    else None
  }

  function Load(op: Byte, w: Word, st: State): Option<State> {
    if op == LD_DWORD then Push(st, w) else if w in st.mem then Push(st, st.mem[w]) else None
  }

  /** The fetch and dispatch loop from `pc` to the end of the text segment. */
  function Exec(u: Undefined, text: seq<Byte>, pc: nat, st: State): Option<State>
    decreases |text| - pc
  {
    if pc >= |text| then Some(st)
    else
      var op := text[pc];
      if op == LD_DWORD || op == LD_VALUE then
        if pc + 5 > |text| then None
        else
          var r := Load(op, Get32(text[pc + 1..pc + 5]), st);
          if r.None? then None else Exec(u, text, pc + 5, r.value)
      else
        var r := Simple(u, op, st);
        if r.None? then None else Exec(u, text, pc + 1, r.value)
  }

  /** Code `c` stands in the text at `pc`. */
  ghost predicate At(text: seq<Byte>, pc: nat, c: seq<Byte>) {
    pc + |c| <= |text| && text[pc..pc + |c|] == c
  }

  lemma {:induction false} AtJoin(text: seq<Byte>, pc: nat, c: seq<Byte>, d: seq<Byte>)
    requires At(text, pc, c + d)
    ensures At(text, pc, c) && At(text, pc + |c|, d)
  {
    var s := text[pc..pc + |c + d|];
    assert s[..|c|] == c && s[|c|..] == d;
    assert text[pc..pc + |c|] == s[..|c|] && text[pc + |c|..pc + |c| + |d|] == s[|c|..];
  }

  lemma {:induction false} ExecLoad(u: Undefined, text: seq<Byte>, pc: nat, op: Byte, w: Word, st: State)
    requires At(text, pc, Operand(op, w)) && (op == LD_DWORD || (op == LD_VALUE && w in st.mem))
             && |st.stack| < STACK_MAX
    ensures Exec(u, text, pc, st) ==
            Exec(u, text, pc + 5, st.(stack := st.stack + [if op == LD_DWORD then w else st.mem[w]]))
  {
    var s := text[pc..pc + 5];
    assert s == Operand(op, w) && s[0] == text[pc] && s[1..] == text[pc + 1..pc + 5];
    assert s[1..] == Set32(w);
    SetThenGet(w);
  }

  lemma {:induction false} ExecSimple(u: Undefined, text: seq<Byte>, pc: nat, op: Byte, st: State)
    requires At(text, pc, [op]) && op != LD_DWORD && op != LD_VALUE && Simple(u, op, st).Some?
    ensures Exec(u, text, pc, st) == Exec(u, text, pc + 1, Simple(u, op, st).value)
  {
    assert text[pc..pc + 1][0] == text[pc];
  }

  lemma {:induction false} BinOfOpCode(op: BinOp)
    ensures BinOf(OpCode(op)) == Some(op)
  {
  }

  lemma {:induction false} ExecBin(u: Undefined, text: seq<Byte>, pc: nat, op: BinOp, s: seq<Word>, x: Word, y: Word,
          m: Memory)
    requires At(text, pc, [OpCode(op)])
    ensures Exec(u, text, pc, State(s + [x] + [y], m)) == Exec(u, text, pc + 1, State(s + [Alu(u, op, x, y)], m))
  {
    hide Alu, Exec;
    var st := State(s + [x] + [y], m);
    BinOfOpCode(op);
    assert st.stack[..|st.stack| - 2] == s;
    ExecSimple(u, text, pc, OpCode(op), st);
  }

  lemma {:induction false} ExecStore(u: Undefined, text: seq<Byte>, pc: nat, s: seq<Word>, a: Word, v: Word, m: Memory)
    requires At(text, pc, [ST_DWORD]) && a in m
    ensures Exec(u, text, pc, State(s + [a] + [v], m)) == Exec(u, text, pc + 1, State(s + [a], m[a := v]))
  {
    hide Alu, Exec;
    var st := State(s + [a] + [v], m);
    assert st.stack[..|st.stack| - 1] == s + [a];
    ExecSimple(u, text, pc, ST_DWORD, st);
  }

  lemma {:induction false} ExecTop(u: Undefined, text: seq<Byte>, pc: nat, op: Byte, s: seq<Word>, v: Word, m: Memory)
    requires At(text, pc, [op]) && (op == NOT || op == POP || (op == LD_STACK && v in m))
    ensures Exec(u, text, pc, State(s + [v], m)) ==
            Exec(u, text, pc + 1,
                 State(if op == POP then s else s + [if op == NOT then Complement(v) else m[v]], m))
  {
    hide Alu, Exec;
    var st := State(s + [v], m);
    assert st.stack[..|st.stack| - 1] == s;
    ExecSimple(u, text, pc, op, st);
  }

  /** The state after an expression: its value on top of the stack, its effects in memory. */
  ghost function After(u: Undefined, e: Expr, st: State): State
    requires Bound(e, st.mem)
  {
    var (v, m) := Eval(u, e, st.mem);
    State(st.stack + [v], m)
  }

  /** `++` and `--` from the point where the address is on top of the stack. */
  lemma {:induction false} ExecBump(u: Undefined, text: seq<Byte>, pc: nat, a: Word, up: bool, s: seq<Word>, m: Memory)
    requires At(text, pc, Bump(a, up)) && a in m && |s| + 3 <= STACK_MAX
    ensures Exec(u, text, pc, State(s + [a], m)) ==
            Exec(u, text, pc + 12, State(s + [a], m[a := Alu(u, if up then Add else Sub, m[a], 1)]))
  {
    hide Alu, Exec, At;
    var op := if up then Add else Sub;
    var c := Operand(LD_VALUE, a) + Operand(LD_DWORD, 1);
    AtJoin(text, pc, c, [OpCode(op), ST_DWORD]);
    AtJoin(text, pc, Operand(LD_VALUE, a), Operand(LD_DWORD, 1));
    assert [OpCode(op), ST_DWORD] == [OpCode(op)] + [ST_DWORD];
    AtJoin(text, pc + 10, [OpCode(op)], [ST_DWORD]);
    ExecLoad(u, text, pc, LD_VALUE, a, State(s + [a], m));
    ExecLoad(u, text, pc + 5, LD_DWORD, 1, State(s + [a] + [m[a]], m));
    ExecBin(u, text, pc + 10, op, s + [a], m[a], 1, m);
    ExecStore(u, text, pc + 11, s, a, Alu(u, op, m[a], 1), m);
  }

  lemma {:induction false} ExecStep(u: Undefined, text: seq<Byte>, pc: nat, a: Word, up: bool, post: bool, st: State)
    requires At(text, pc, Code(Step(a, up, post))) && a in st.mem && |st.stack| + Depth(Step(a, up, post)) <= STACK_MAX
    ensures Exec(u, text, pc, st) == Exec(u, text, pc + |Code(Step(a, up, post))|, After(u, Step(a, up, post), st))
  {
    hide Alu, Exec, At, Bump, Operand;
    var (s, m) := (st.stack, st.mem);
    var v := Alu(u, if up then Add else Sub, m[a], 1);
    if post {
      AtJoin(text, pc, Operand(LD_VALUE, a), Operand(LD_DWORD, a) + (Bump(a, up) + [POP]));
      AtJoin(text, pc + 5, Operand(LD_DWORD, a), Bump(a, up) + [POP]);
      AtJoin(text, pc + 10, Bump(a, up), [POP]);
      ExecLoad(u, text, pc, LD_VALUE, a, st);
      ExecLoad(u, text, pc + 5, LD_DWORD, a, State(s + [m[a]], m));
      ExecBump(u, text, pc + 10, a, up, s + [m[a]], m);
      ExecTop(u, text, pc + 22, POP, s + [m[a]], a, m[a := v]);
    } else {
      AtJoin(text, pc, Operand(LD_DWORD, a), Bump(a, up) + [LD_STACK]);
      AtJoin(text, pc + 5, Bump(a, up), [LD_STACK]);
      ExecLoad(u, text, pc, LD_DWORD, a, st);
      ExecBump(u, text, pc + 5, a, up, s, m);
      ExecTop(u, text, pc + 17, LD_STACK, s, a, m[a := v]);
    }
  }

  /** Running the code of an expression pushes its value and leaves memory as evaluation does. */
  lemma {:induction false} ExecCode(u: Undefined, text: seq<Byte>, pc: nat, e: Expr, st: State)
    requires At(text, pc, Code(e)) && Bound(e, st.mem) && |st.stack| + Depth(e) <= STACK_MAX
    ensures Exec(u, text, pc, st) == Exec(u, text, pc + |Code(e)|, After(u, e, st))
    decreases e
  {
    hide Alu, Exec, At, Operand;
    var (s, m) := (st.stack, st.mem);
    match e
    case Lit(v) => ExecLoad(u, text, pc, LD_DWORD, v, st);
    case Var(a) => ExecLoad(u, text, pc, LD_VALUE, a, st);
    case Bin(op, l, r) =>
      AtJoin(text, pc, Code(l) + Code(r), [OpCode(op)]);
      AtJoin(text, pc, Code(l), Code(r));
      ExecCode(u, text, pc, l, st);
      var st1 := After(u, l, st);
      BoundKeys(r, m, st1.mem);
      ExecCode(u, text, pc + |Code(l)|, r, st1);
      var (x, m1) := Eval(u, l, m);
      var (y, m2) := Eval(u, r, m1);
      ExecBin(u, text, pc + |Code(l) + Code(r)|, op, s, x, y, m2);
    case Not(x) =>
      AtJoin(text, pc, Code(x), [NOT]);
      ExecCode(u, text, pc, x, st);
      var (v, m1) := Eval(u, x, m);
      ExecTop(u, text, pc + |Code(x)|, NOT, s, v, m1);
    case Assign(a, x) =>
      AtJoin(text, pc, Operand(LD_DWORD, a) + Code(x), [ST_DWORD, LD_STACK]);
      AtJoin(text, pc, Operand(LD_DWORD, a), Code(x));
      assert [ST_DWORD, LD_STACK] == [ST_DWORD] + [LD_STACK];
      AtJoin(text, pc + 5 + |Code(x)|, [ST_DWORD], [LD_STACK]);
      ExecLoad(u, text, pc, LD_DWORD, a, st);
      ExecCode(u, text, pc + 5, x, State(s + [a], m));
      var (v, m1) := Eval(u, x, m);
      ExecStore(u, text, pc + 5 + |Code(x)|, s, a, v, m1);
      ExecTop(u, text, pc + 6 + |Code(x)|, LD_STACK, s, a, m1[a := v]);
    case Step(a, up, post) => ExecStep(u, text, pc, a, up, post, st);
  }

  lemma {:induction false} ExecList(u: Undefined, text: seq<Byte>, pc: nat, es: seq<Expr>, m: Memory)
    requires At(text, pc, ListCode(es)) && es != [] && AllBound(es, m)
    requires forall i | 0 <= i < |es| :: Depth(es[i]) <= STACK_MAX
    ensures var (v, m') := EvalList(u, es, m);
            Exec(u, text, pc, State([], m)) == Exec(u, text, pc + |ListCode(es)|, State([v], m'))
    decreases |es|
  {
    hide Alu, Exec, At, Code;
    var st := State([], m);
    var (v, m1) := Eval(u, es[0], m);
    assert [] + [v] == [v];
    if |es| > 1 {
      AtJoin(text, pc, Code(es[0]) + [POP], ListCode(es[1..]));
      AtJoin(text, pc, Code(es[0]), [POP]);
      ExecCode(u, text, pc, es[0], st);
      ExecTop(u, text, pc + |Code(es[0])|, POP, [], v, m1);
      AllBoundKeys(es, m, m1);
      ExecList(u, text, pc + |Code(es[0])| + 1, es[1..], m1);
    } else {
      ExecCode(u, text, pc, es[0], st);
    }
  }

  lemma {:induction false} ExecPadding(u: Undefined, text: seq<Byte>, pc: nat, st: State)
    requires forall i | pc <= i < |text| :: text[i] == NOOP
    ensures Exec(u, text, pc, st) == Some(st)
    decreases |text| - pc
  {
    if pc < |text| { ExecPadding(u, text, pc + 1, st); }
  }

  /** The text segment after compiling: the code, then zeros. */
  ghost predicate Compiled(text: seq<Byte>, es: seq<Expr>) {
    At(text, 0, ListCode(es)) && forall i | |ListCode(es)| <= i < |text| :: text[i] == NOOP
  }

  /** Compiler correctness: for every statement list whose code and stack fit, the machine ends with
      the value of the last statement at the stack bottom and the variables of an evaluator. */
  lemma {:induction false} CompilerCorrect(u: Undefined, text: seq<Byte>, es: seq<Expr>, m: Memory)
    requires Compiled(text, es) && es != [] && AllBound(es, m)
    requires forall i | 0 <= i < |es| :: Depth(es[i]) <= STACK_MAX
    ensures var (v, m') := EvalList(u, es, m); Exec(u, text, 0, State([], m)) == Some(State([v], m'))
  {
    hide Alu, Exec;
    ExecList(u, text, 0, es, m);
    var (v, m') := EvalList(u, es, m);
    ExecPadding(u, text, |ListCode(es)|, State([v], m'));
  }
}
