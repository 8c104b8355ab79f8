/** components/finsh/finsh_compiler.c: the type check and the compiler on the node table. */
module FinshCompiler {
  import opened FinshLang
  import opened FinshVm

  // The type check tags the nodes of a tree in place, the compiler walks the tagged tree and writes bytes.
  // A tree is linked by first child and next sibling; `Forest` is the shape of such a chain of siblings,
  // with the table index of each node.

  datatype Kind = KId | KValue | KBin(op: BinOp) | KNot | KAssign | KPre(up: bool) | KPost(up: bool)

  datatype DataType = Unset | Dword

  /** One entry of the node table; `val` is a literal or the address of a variable. */
  datatype Node = Node(kind: Kind, val: Word, isAddr: bool, dataType: DataType, child: int, sibling: int)

  const NULL := -1

  datatype Forest = Empty | Tree(idx: int, kind: Kind, val: Word, kids: Forest, sibs: Forest)

  ghost function Foot(f: Forest): set<int> {
    if f.Empty? then {} else {f.idx} + Foot(f.kids) + Foot(f.sibs)
  }

  /** No node is reached twice. */
  ghost predicate Separate(f: Forest) {
    f.Empty? || (f.idx !in Foot(f.kids) && f.idx !in Foot(f.sibs) && Foot(f.kids) !! Foot(f.sibs)
                 && Separate(f.kids) && Separate(f.sibs))
  }

  /** The table holds forest `f` from node `i` on. */
  ghost predicate Holds(nodes: seq<Node>, i: int, f: Forest)
    decreases f
  {
    match f
    case Empty => i == NULL
    case Tree(idx, kind, val, kids, sibs) =>
      && i == idx && 0 <= i < |nodes| && nodes[i].kind == kind && nodes[i].val == val
      && Holds(nodes, nodes[i].child, kids) && Holds(nodes, nodes[i].sibling, sibs)
  }

  /** Leaves are identifiers and values, as the parser builds them. */
  ghost predicate Grown(f: Forest) {
    f.Empty? || (Grown(f.kids) && Grown(f.sibs) && (f.kids.Empty? <==> f.kind == KId || f.kind == KValue))
  }

  ghost predicate Untagged(nodes: seq<Node>, f: Forest) {
    forall i | i in Foot(f) && 0 <= i < |nodes| :: !nodes[i].isAddr
  }

  /** Whether the first child of a node is wanted as an address. */
  function ChildAddr(kind: Kind, isAddr: bool): bool { kind == KAssign || kind.KPre? || isAddr }

  ghost predicate Tagged(nodes: seq<Node>, f: Forest, isAddr: bool) {
    f.Empty? ||
    (&& 0 <= f.idx < |nodes| && nodes[f.idx].isAddr == isAddr && nodes[f.idx].dataType == Dword
     && Tagged(nodes, f.kids, ChildAddr(f.kind, isAddr)) && Tagged(nodes, f.sibs, false))
  }

  /** The bytes for one node, after those of its children. */
  function OwnCode(kind: Kind, val: Word, kids: Forest, isAddr: bool): seq<Byte> {
    match kind
    case KId => Operand(if isAddr then LD_DWORD else LD_VALUE, val)
    case KValue => Operand(LD_DWORD, val)
    case KBin(op) => [OpCode(op)]
    case KNot => [NOT]
    case KAssign => if kids.Tree? && kids.kind == KId then [ST_DWORD, LD_STACK] else []
    case KPre(up) => if kids.Tree? && kids.kind == KId then Bump(kids.val, up) + [LD_STACK] else []
    case KPost(up) =>
      if kids.Tree? && kids.kind == KId then Operand(LD_DWORD, kids.val) + (Bump(kids.val, up) + [POP]) else []
  }

  /** The bytes of a tagged forest: children, the node itself, then the siblings. */
  function ForestCode(f: Forest, isAddr: bool): seq<Byte> {
    if f.Empty? then []
    else
      ForestCode(f.kids, ChildAddr(f.kind, isAddr)) + OwnCode(f.kind, f.val, f.kids, isAddr)
      + ForestCode(f.sibs, false)
  }

  /** The text with code `c` written at `p`. */
  function Written(t: seq<Byte>, p: nat, c: seq<Byte>): (r: seq<Byte>)
    requires p + |c| <= |t|
    ensures |r| == |t|
  {
    t[..p] + c + t[p + |c|..]
  }

  lemma {:induction false} WrittenTwice(t: seq<Byte>, p: nat, c: seq<Byte>, d: seq<Byte>)
    requires p + |c| + |d| <= |t|
    ensures Written(Written(t, p, c), p + |c|, d) == Written(t, p, c + d)
  {
    var r := Written(t, p, c);
    assert r[..p + |c|] == t[..p] + c && r[p + |c| + |d|..] == t[p + |c| + |d|..];
  }

  // ---- frames ----

  /** A node without its tags. */
  function Bare(n: Node): Node { n.(isAddr := false, dataType := Unset) }

  /** Only tags, and only of nodes in `foot`, may differ. */
  ghost predicate Retagged(nodes: seq<Node>, nodes': seq<Node>, foot: set<int>) {
    && |nodes'| == |nodes|
    && (forall j | 0 <= j < |nodes| :: Bare(nodes'[j]) == Bare(nodes[j]))
    && (forall j | 0 <= j < |nodes| && j !in foot :: nodes'[j] == nodes[j])
  }

  lemma {:induction false} HoldsFrame(nodes: seq<Node>, nodes': seq<Node>, i: int, f: Forest)
    requires Holds(nodes, i, f) && |nodes'| == |nodes|
    requires forall j | j in Foot(f) && 0 <= j < |nodes| :: Bare(nodes'[j]) == Bare(nodes[j])
    ensures Holds(nodes', i, f)
    decreases f
  {
    if f.Tree? {
      assert Bare(nodes'[i]) == Bare(nodes[i]);
      HoldsFrame(nodes, nodes', nodes[i].child, f.kids);
      HoldsFrame(nodes, nodes', nodes[i].sibling, f.sibs);
    }
  }

  lemma {:induction false} TaggedFrame(nodes: seq<Node>, nodes': seq<Node>, f: Forest, isAddr: bool)
    requires Tagged(nodes, f, isAddr) && |nodes'| == |nodes|
    requires forall j | j in Foot(f) && 0 <= j < |nodes| ::
               nodes'[j].isAddr == nodes[j].isAddr && nodes'[j].dataType == nodes[j].dataType
    ensures Tagged(nodes', f, isAddr)
  {
    if f.Tree? {
      TaggedFrame(nodes, nodes', f.kids, ChildAddr(f.kind, isAddr));
      TaggedFrame(nodes, nodes', f.sibs, false);
    }
  }

  /** Retagging elsewhere leaves a forest as it is. */
  lemma {:induction false} RetaggedKeeps(nodes: seq<Node>, nodes': seq<Node>, foot: set<int>, i: int, f: Forest,
          isAddr: bool)
    requires Retagged(nodes, nodes', foot) && Holds(nodes, i, f)
    ensures Holds(nodes', i, f)
    ensures foot !! Foot(f) && Tagged(nodes, f, isAddr) ==> Tagged(nodes', f, isAddr)
    ensures foot !! Foot(f) && Untagged(nodes, f) ==> Untagged(nodes', f)
  {
    HoldsFrame(nodes, nodes', i, f);
    if foot !! Foot(f) && Tagged(nodes, f, isAddr) { TaggedFrame(nodes, nodes', f, isAddr); }
  }

  lemma {:induction false} RetaggedTwice(n0: seq<Node>, n1: seq<Node>, n2: seq<Node>, a: set<int>, b: set<int>)
    requires Retagged(n0, n1, a) && Retagged(n1, n2, b)
    ensures Retagged(n0, n2, a + b)
  {
  }

  /** The last step of the type check of a node: its own tags. */
  lemma {:induction false} OwnTags(n0: seq<Node>, n1: seq<Node>, i: int, f: Forest, isAddr: bool)
    requires f.Tree? && Holds(n0, i, f) && Separate(f) && Grown(f) && !n0[i].isAddr
    requires Tagged(n0, f.kids, ChildAddr(f.kind, isAddr)) && Tagged(n0, f.sibs, false)
    requires n1 == n0[i := n0[i].(isAddr := n0[i].isAddr || isAddr,
                                  dataType := if n0[i].child != NULL && 0 <= n0[i].child < |n0|
                                              then n0[n0[i].child].dataType else Dword)]
    ensures Holds(n1, i, f) && Tagged(n1, f, isAddr) && Retagged(n0, n1, {i})
  {
    hide Foot;
    assert Bare(n1[i]) == Bare(n0[i]);
    assert Retagged(n0, n1, {i});
    SeparateOwn(f);
    RetaggedKeeps(n0, n1, {i}, n0[i].child, f.kids, ChildAddr(f.kind, isAddr));
    RetaggedKeeps(n0, n1, {i}, n0[i].sibling, f.sibs, false);
  }

  lemma {:induction false} SeparateOwn(f: Forest)
    requires f.Tree? && Separate(f)
    ensures {f.idx} !! Foot(f.kids) && {f.idx} !! Foot(f.sibs) && Foot(f.kids) !! Foot(f.sibs)
    ensures Foot(f) == Foot(f.kids) + Foot(f.sibs) + {f.idx}
  {
  }

  // ---- trees of expressions ----

  /** Node `f` (whatever its siblings) is the tree of expression `e`. */
  ghost predicate IsExpr(f: Forest, e: Expr)
    decreases e
  {
    f.Tree? &&
    match e
    case Lit(v) => f.kind == KValue && f.val == v && f.kids.Empty?
    case Var(a) => f.kind == KId && f.val == a && f.kids.Empty?
    case Bin(op, l, r) => f.kind == KBin(op) && IsExpr(f.kids, l) && IsExpr(f.kids.sibs, r) && f.kids.sibs.sibs.Empty?
    case Not(x) => f.kind == KNot && IsExpr(f.kids, x) && f.kids.sibs.Empty?
    case Assign(a, x) => f.kind == KAssign && IsId(f.kids, a) && IsExpr(f.kids.sibs, x) && f.kids.sibs.sibs.Empty?
    case Step(a, up, post) => f.kind == (if post then KPost(up) else KPre(up)) && IsId(f.kids, a) && f.kids.sibs.Empty?
  }

  ghost predicate IsId(f: Forest, a: Word) { f.Tree? && f.kind == KId && f.val == a && f.kids.Empty? }

  /** A chain of siblings is a statement list. */
  ghost predicate IsList(f: Forest, es: seq<Expr>)
    decreases f
  {
    if f.Empty? then es == [] else es != [] && IsExpr(f, es[0]) && IsList(f.sibs, es[1..])
  }

  function NodeCode(f: Forest, isAddr: bool): seq<Byte>
    requires f.Tree?
  {
    ForestCode(f.kids, ChildAddr(f.kind, isAddr)) + OwnCode(f.kind, f.val, f.kids, isAddr)
  }

  /** The walk over a tagged tree emits the code of its expression. */
  lemma {:induction false} NodeCodeIs(f: Forest, e: Expr)
    requires IsExpr(f, e)
    ensures NodeCode(f, false) == Code(e)
    decreases e
  {
    match e
    case Lit(v) => assert [] + Operand(LD_DWORD, v) == Operand(LD_DWORD, v);
    case Var(a) => assert [] + Operand(LD_VALUE, a) == Operand(LD_VALUE, a);
    case Bin(op, l, r) => NodeCodeIs(f.kids, l); NodeCodeIs(f.kids.sibs, r); Alone(f.kids.sibs);
    case Not(x) => NodeCodeIs(f.kids, x); Alone(f.kids);
    case Assign(a, x) =>
      NodeCodeIs(f.kids.sibs, x);
      Alone(f.kids.sibs);
      assert ForestCode(f.kids, true) == [] + Operand(LD_DWORD, a) + ForestCode(f.kids.sibs, false);
      assert [] + Operand(LD_DWORD, a) == Operand(LD_DWORD, a);
    case Step(a, up, post) => StepCodeIs(f, a, up, post);
  }

  lemma {:induction false} StepCodeIs(f: Forest, a: Word, up: bool, post: bool)
    requires IsExpr(f, Step(a, up, post))
    ensures NodeCode(f, false) == Code(Step(a, up, post))
  {
    hide Operand, Bump;
    var op := if post then LD_VALUE else LD_DWORD;
    assert ForestCode(f.kids.kids, ChildAddr(KId, !post)) == [];
    assert ForestCode(f.kids, !post) == [] + Operand(op, a) + [];
    assert [] + Operand(op, a) + [] == Operand(op, a);
  }

  lemma {:induction false} Alone(f: Forest)
    requires f.Tree? && f.sibs.Empty?
    ensures ForestCode(f, false) == NodeCode(f, false)
  {
    assert NodeCode(f, false) + [] == NodeCode(f, false);
  }

  /** The code of a chain of statements. */
  function ChainCode(f: Forest): seq<Byte> {
    if f.Empty? then []
    else if f.sibs.Empty? then NodeCode(f, false)
    else NodeCode(f, false) + [POP] + ChainCode(f.sibs)
  }

  lemma {:induction false} ChainCodeIs(f: Forest, es: seq<Expr>)
    requires IsList(f, es)
    ensures ChainCode(f) == ListCode(es)
    decreases f
  {
    if f.Tree? {
      NodeCodeIs(f, es[0]);
      ChainCodeIs(f.sibs, es[1..]);
    }
  }

  class Compiler {
    var nodes: seq<Node>
    const text: array<Byte>
    var pc: nat

    ghost predicate Valid()
      reads this
    {
      text.Length == TEXT_MAX && pc <= TEXT_MAX
    }

    /** finsh_type_check. */
    method TypeCheck(i: int, isAddr: bool, ghost f: Forest)
      requires Holds(nodes, i, f) && Separate(f) && Grown(f) && Untagged(nodes, f)
      modifies this`nodes
      ensures Holds(nodes, i, f) && Tagged(nodes, f, isAddr) && Retagged(old(nodes), nodes, Foot(f))
      decreases f
    {
      hide Foot, Retagged;
      if i == NULL {
        RetaggedNone(nodes);
        return;
      }
      ghost var n0 := nodes;
      SeparateOwn(f);
      UntaggedParts(n0, f);
      if nodes[i].kind == KAssign || nodes[i].kind.KPre? {
        TypeCheck(nodes[i].child, true, f.kids);
      } else {
        TypeCheck(nodes[i].child, isAddr, f.kids);
      }
      ghost var n1 := nodes;
      RetaggedKeeps(n0, n1, Foot(f.kids), n0[i].sibling, f.sibs, false);
      RetaggedOwn(n0, n1, Foot(f.kids), i);
      TypeCheck(nodes[i].sibling, false, f.sibs);
      ghost var n2 := nodes;
      RetaggedKeeps(n1, n2, Foot(f.sibs), n1[i].child, f.kids, ChildAddr(f.kind, isAddr));
      RetaggedOwn(n1, n2, Foot(f.sibs), i);
      RetaggedTwice(n0, n1, n2, Foot(f.kids), Foot(f.sibs));

      nodes := nodes[i := nodes[i].(isAddr := nodes[i].isAddr || isAddr)];
      if nodes[i].child != NULL {
        nodes := nodes[i := nodes[i].(dataType := nodes[nodes[i].child].dataType)];
      } else {
        nodes := nodes[i := nodes[i].(dataType := Dword)];
      }
      OwnTags(n2, nodes, i, f, isAddr);
      RetaggedTwice(n0, n2, nodes, Foot(f.kids) + Foot(f.sibs), {i});
    }

    method EmitByte(b: Byte)
      requires Valid() && pc < TEXT_MAX
      modifies this`pc, text
      ensures Valid() && pc == old(pc) + 1 && text[..] == Written(old(text[..]), old(pc), [b])
    {
      text[pc] := b;
      pc := pc + 1;
    }

    /** Four bytes in place. */
    method EmitFour(a: Byte, b: Byte, c: Byte, d: Byte)
      requires Valid() && pc + 4 <= TEXT_MAX
      modifies this`pc, text
      ensures Valid() && pc == old(pc) + 4 && text[..] == Written(old(text[..]), old(pc), [a, b, c, d])
    {
      text[pc] := a;
      text[pc + 1] := b;
      text[pc + 2] := c;
      text[pc + 3] := d;
      pc := pc + 4;
    }

    /** finsh_code_byte followed by finsh_code_dword, which is FINSH_SET32. */
    method EmitOperand(op: Byte, w: Word)
      requires Valid() && pc + 5 <= TEXT_MAX
      modifies this`pc, text
      ensures Valid() && pc == old(pc) + 5 && text[..] == Written(old(text[..]), old(pc), Operand(op, w))
    {
      hide Written;
      ghost var t, p := text[..], pc;
      EmitByte(op);
      EmitFour(w % 0x100, w / 0x100 % 0x100, w / 0x1_0000 % 0x100, w / 0x100_0000);
      WrittenTwice(t, p, [op], Set32(w));
    }

    method EmitBump(a: Word, up: bool)
      requires Valid() && pc + 12 <= TEXT_MAX
      modifies this`pc, text
      ensures Valid() && pc == old(pc) + 12 && text[..] == Written(old(text[..]), old(pc), Bump(a, up))
    {
      hide Operand, Written;
      ghost var t, p, op := text[..], pc, OpCode(if up then Add else Sub);
      EmitOperand(LD_VALUE, a);
      EmitOperand(LD_DWORD, 1);
      EmitByte(OpCode(if up then Add else Sub));
      EmitByte(ST_DWORD);
      ghost var c := Operand(LD_VALUE, a) + Operand(LD_DWORD, 1);
      WrittenTwice(t, p, Operand(LD_VALUE, a), Operand(LD_DWORD, 1));
      WrittenTwice(t, p, c, [op]);
      WrittenTwice(t, p, c + [op], [ST_DWORD]);
      assert c + [op] + [ST_DWORD] == c + [op, ST_DWORD];
    }

    /** The bytes for one node, after those of its children. */
    method EmitOwn(i: int, ghost f: Forest, ghost isAddr: bool)
      requires Valid() && Holds(nodes, i, f) && Tagged(nodes, f, isAddr) && Grown(f) && f.Tree?
      requires pc + |OwnCode(f.kind, f.val, f.kids, isAddr)| <= TEXT_MAX
      modifies this`pc, text
      ensures Valid()
      ensures var c := OwnCode(f.kind, f.val, f.kids, isAddr);
              pc == old(pc) + |c| && text[..] == Written(old(text[..]), old(pc), c)
    {
      hide Operand, Written, Bump;
      ghost var t, p := text[..], pc;
      var node := nodes[i];
      match node.kind {
        case KId =>
          EmitOperand(if node.isAddr then LD_DWORD else LD_VALUE, node.val);
        case KValue =>
          EmitOperand(LD_DWORD, node.val);
        case KBin(op) =>
          if node.dataType == Dword { EmitByte(OpCode(op)); }
        case KNot =>
          if node.dataType == Dword { EmitByte(NOT); }
        case KAssign =>
          if nodes[node.child].kind == KId && nodes[node.child].dataType == Dword {
            EmitByte(ST_DWORD);
            EmitByte(LD_STACK);
            WrittenTwice(t, p, [ST_DWORD], [LD_STACK]);
            assert [ST_DWORD] + [LD_STACK] == [ST_DWORD, LD_STACK];
          } else { WrittenNone(t, p); }
        case KPre(up) =>
          if nodes[node.child].kind == KId && node.dataType == Dword {
            var a := nodes[node.child].val;
            EmitBump(a, up);
            EmitByte(LD_STACK);
            WrittenTwice(t, p, Bump(a, up), [LD_STACK]);
          } else { WrittenNone(t, p); }
        case KPost(up) =>
          if nodes[node.child].kind == KId && node.dataType == Dword {
            var a := nodes[node.child].val;
            EmitOperand(LD_DWORD, a);
            EmitBump(a, up);
            EmitByte(POP);
            ghost var c := Operand(LD_DWORD, a);
            WrittenTwice(t, p, c, Bump(a, up));
            WrittenTwice(t, p, c + Bump(a, up), [POP]);
            assert c + Bump(a, up) + [POP] == c + (Bump(a, up) + [POP]);
          } else { WrittenNone(t, p); }
      }
    }

    /** finsh_compile. */
    method Compile(i: int, ghost f: Forest, ghost isAddr: bool)
      requires Valid() && Holds(nodes, i, f) && Tagged(nodes, f, isAddr) && Grown(f)
      requires pc + |ForestCode(f, isAddr)| <= TEXT_MAX
      modifies this`pc, text
      ensures Valid()
      ensures pc == old(pc) + |ForestCode(f, isAddr)|
              && text[..] == Written(old(text[..]), old(pc), ForestCode(f, isAddr))
      decreases f
    {
      hide OwnCode, Written;
      ghost var t, p := text[..], pc;
      if i == NULL {
        WrittenNone(t, p);
        return;
      }
      ghost var c := ForestCode(f.kids, ChildAddr(f.kind, isAddr));
      ghost var d := OwnCode(f.kind, f.val, f.kids, isAddr);
      Compile(nodes[i].child, f.kids, ChildAddr(f.kind, isAddr));
      EmitOwn(i, f, isAddr);
      WrittenTwice(t, p, c, d);
      Compile(nodes[i].sibling, f.sibs, false);
      WrittenTwice(t, p, c + d, ForestCode(f.sibs, false));
    }

    /** finsh_compiler_run: check, clear the text, then compile statement by statement, cutting each
        one off its siblings. */
    method CompileAll(root: int, ghost f: Forest, ghost es: seq<Expr>)
      requires text.Length == TEXT_MAX && Holds(nodes, root, f) && Separate(f) && Untagged(nodes, f)
      requires IsList(f, es) && |ListCode(es)| <= TEXT_MAX
      modifies this, text
      ensures Valid() && pc == |ListCode(es)| && Compiled(text[..], es)
    {
      hide Foot, Written, ListCode, IsExpr, NodeCode, ForestCode, Retagged;
      ListGrown(f, es);
      ChainCodeIs(f, es);
      TypeCheck(root, false, f);
      forall i | 0 <= i < text.Length { text[i] := 0; }
      pc := 0;
      ghost var blank := text[..];
      ghost var done, g := [], f;
      WrittenNone(blank, 0);
      assert done + ChainCode(g) == ChainCode(f);
      var sibling := root;
      while sibling != NULL
        invariant Valid() && Holds(nodes, sibling, g) && Tagged(nodes, g, false) && Separate(g) && Grown(g)
        invariant done + ChainCode(g) == ChainCode(f)
        invariant pc == |done| && text[..] == Written(blank, 0, done)
        decreases g
      {
        var current := sibling;
        sibling := nodes[current].sibling;
        ghost var n0 := nodes;
        nodes := nodes[current := nodes[current].(sibling := NULL)];
        ghost var one := g.(sibs := Empty);
        CutOff(n0, nodes, current, g);
        Alone(one);
        NodeAlone(g);
        Compile(current, one, false);
        WrittenTwice(blank, 0, done, NodeCode(g, false));
        done := done + NodeCode(g, false);
        if sibling != NULL {
          EmitByte(POP);
          WrittenTwice(blank, 0, done, [POP]);
          done := done + [POP];
        }
        g := g.sibs;
        assert done + ChainCode(g) == ChainCode(f);
      }
      assert done == ChainCode(f);
      WrittenCompiled(blank, done, es);
    }
  }

  /** Cutting a statement off leaves it and the rest of the list as they were. */
  lemma {:induction false} CutOff(n0: seq<Node>, n1: seq<Node>, i: int, g: Forest)
    requires g.Tree? && Holds(n0, i, g) && Tagged(n0, g, false) && Separate(g)
    requires n1 == n0[i := n0[i].(sibling := NULL)]
    ensures Holds(n1, i, g.(sibs := Empty)) && Tagged(n1, g.(sibs := Empty), false)
    ensures Holds(n1, n0[i].sibling, g.sibs) && Tagged(n1, g.sibs, false)
  {
    SeparateOwn(g);
    HoldsFrame(n0, n1, n0[i].child, g.kids);
    HoldsFrame(n0, n1, n0[i].sibling, g.sibs);
    TaggedFrame(n0, n1, g.kids, ChildAddr(g.kind, false));
    TaggedFrame(n0, n1, g.sibs, false);
  }

  lemma {:induction false} NodeAlone(g: Forest)
    requires g.Tree?
    ensures NodeCode(g.(sibs := Empty), false) == NodeCode(g, false)
  {
  }

  lemma {:induction false} ListGrown(f: Forest, es: seq<Expr>)
    requires IsList(f, es)
    ensures Grown(f)
    decreases f
  {
    if f.Tree? {
      ListGrown(f.sibs, es[1..]);
      ExprGrown(f, es[0]);
    }
  }

  lemma {:induction false} ExprGrown(f: Forest, e: Expr)
    requires IsExpr(f, e) && Grown(f.sibs)
    ensures Grown(f)
    decreases e
  {
    match e
    case Lit(_) =>
    case Var(_) =>
    case Bin(_, l, r) => ExprGrown(f.kids.sibs, r); ExprGrown(f.kids, l);
    case Not(x) => ExprGrown(f.kids, x);
    case Assign(_, x) => ExprGrown(f.kids.sibs, x);
    case Step(_, _, _) =>
  }

  lemma {:induction false} WrittenCompiled(blank: seq<Byte>, c: seq<Byte>, es: seq<Expr>)
    requires |c| <= |blank| && c == ListCode(es) && forall i | 0 <= i < |blank| :: blank[i] == NOOP
    ensures Compiled(Written(blank, 0, c), es)
  {
    hide ListCode;
    var t := Written(blank, 0, c);
    assert blank[..0] == [] && t == c + blank[|c|..] && t[..|c|] == c;
    forall i | |c| <= i < |t| ensures t[i] == NOOP { assert t[i] == blank[i]; }
  }

  lemma {:induction false} WrittenNone(t: seq<Byte>, p: nat)
    requires p <= |t|
    ensures Written(t, p, []) == t
  {
  }

  lemma {:induction false} RetaggedNone(nodes: seq<Node>)
    ensures Retagged(nodes, nodes, Foot(Empty))
  {
  }

  lemma {:induction false} RetaggedOwn(n0: seq<Node>, n1: seq<Node>, foot: set<int>, i: int)
    requires Retagged(n0, n1, foot) && {i} !! foot && 0 <= i < |n0|
    ensures |n1| == |n0| && n1[i] == n0[i]
  {
  }

  lemma {:induction false} UntaggedParts(nodes: seq<Node>, f: Forest)
    requires f.Tree? && Untagged(nodes, f)
    ensures Untagged(nodes, f.kids) && Untagged(nodes, f.sibs) && (0 <= f.idx < |nodes| ==> !nodes[f.idx].isAddr)
  {
    assert f.idx in Foot(f);
  }
}
