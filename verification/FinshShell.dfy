/** finsh_run_line: compile a parsed line, run it, read the answer from the bottom of the stack. */
module FinshShell {
  import opened FinshLang
  import opened FinshVm
  import opened FinshCompiler
  import opened FinshMachine
  import opened FinshWords

  /** Tree, byte code and machine agree with the evaluator, for every line whose code and stack fit; and
      with integer arithmetic, where that has an answer that fits a word. */
  method RunLine(u: Undefined, c: Compiler, m: Machine, root: int, ghost f: Forest, ghost es: seq<Expr>)
    returns (answer: Word)
    requires m.Valid() && c.text == m.text && m.stack != m.text as object
    requires Holds(c.nodes, root, f) && Separate(f) && Untagged(c.nodes, f)
    requires IsList(f, es) && es != [] && AllBound(es, m.mem)
    requires |ListCode(es)| <= TEXT_MAX && forall i | 0 <= i < |es| :: Depth(es[i]) <= STACK_MAX
    modifies c, m, c.text, m.stack
    ensures (answer, m.mem) == EvalList(u, es, old(m.mem))
    ensures var v := LineValue(es, Numeric(old(m.mem)));
            v.Some? ==> (Signed(answer), Numeric(m.mem)) == v.value
  {
    hide Exec, EvalList, IsList, Compiled, ListCode, Alu, LineValue, Numeric, Signed;
    c.CompileAll(root, f, es);
    CompilerCorrect(u, c.text[..], es, m.mem);
    m.Run(u);
    ghost var r := EvalList(u, es, old(m.mem));
    assert m.View() == State([r.0], r.1);
    assert m.stack[..m.sp][0] == m.stack[0];
    answer := m.stack[0];
    if LineValue(es, Numeric(old(m.mem))).Some? { LineIs(u, es, old(m.mem)); }
  }
}
