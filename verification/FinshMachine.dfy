/** finsh_vm_run over a fixed stack array: each operation updates slots, the stack pointer, the
    program counter or a variable in place. */
module FinshMachine {
  import opened Options
  import opened FinshLang
  import opened FinshVm

  class Machine {
    const text: array<Byte>
    const stack: array<Word>
    var sp: nat
    var pc: nat
    var mem: Memory

    ghost predicate Valid()
      reads this
    {
      text.Length == TEXT_MAX && stack.Length == STACK_MAX && sp <= STACK_MAX
    }

    /** The slots below the stack pointer, and the variables. */
    ghost function View(): State
      reads this, stack
      requires Valid()
    {
      State(stack[..sp], mem)
    }

    constructor (text: array<Byte>, stack: array<Word>, mem: Memory)
      requires text.Length == TEXT_MAX && stack.Length == STACK_MAX
      ensures Valid() && this.text == text && this.stack == stack && this.mem == mem && sp == 0 && pc == 0
    {
      this.text, this.stack, this.mem, sp, pc := text, stack, mem, 0, 0;
    }

    /** The operations without operand bytes. */
    method Operate(u: Undefined, op: Byte)
      requires Valid() && Simple(u, op, View()).Some?
      modifies this`sp, this`mem, stack
      ensures Valid() && View() == Simple(u, op, old(View())).value
    {
      hide Alu, Complement;
      if op == NOOP {
      } else if BinOf(op).Some? {
        stack[sp - 2] := Alu(u, BinOf(op).value, stack[sp - 2], stack[sp - 1]);
        sp := sp - 1;
      } else if op == NOT {
        stack[sp - 1] := Complement(stack[sp - 1]);
      } else if op == POP {
        sp := sp - 1;
      } else if op == LD_STACK {
        stack[sp - 1] := mem[stack[sp - 1]];
      } else {
        mem := mem[stack[sp - 2] := stack[sp - 1]];
        sp := sp - 1;
      }
    }

    /** finsh_vm_run: whenever the abstract machine has an answer, the array machine computes it. */
    method Run(u: Undefined)
      requires Valid() && stack != text as object && Exec(u, text[..], 0, State([], mem)).Some?
      modifies this, stack
      ensures Valid() && Some(View()) == Exec(u, text[..], 0, State([], old(mem)))
      ensures text[..] == old(text[..])
    {
      hide Alu, Complement, Simple;
      sp, pc := 0, 0;
      ghost var t := text[..];
      while pc < text.Length
        invariant Valid() && text[..] == t
        invariant Exec(u, t, pc, View()) == Exec(u, t, 0, State([], old(mem)))
        decreases text.Length - pc
      {
        var op := text[pc];
        ghost var at, st := pc, View();
        pc := pc + 1;
        if op == LD_DWORD || op == LD_VALUE {
          var w := Get32(text[pc..pc + 4]);
          assert text[pc..pc + 4] == t[at + 1..at + 5];
          stack[sp] := if op == LD_DWORD then w else mem[w];
          sp := sp + 1;
          assert View() == Load(op, w, st).value;
          pc := pc + 4;
        } else {
          Operate(u, op);
        }
      }
    }
  }
}
