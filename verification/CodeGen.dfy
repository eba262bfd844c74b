/** What the one-pass compiler emits, as functions of the syntax tree.  Jump
    operands are byte offsets from the start of the code; `base` is the offset
    at which the piece is emitted. */
module CodeGen {
  import opened Basics
  import opened Bytecode
  import opened Source

  /** The offset the side buffer of a `for` step starts counting from: its
      position is 0 and the eight header bytes are subtracted all the same. */
  const STEP_BASE := -8

  // ----- sizes -----

  function ExprSize(e: Expr): (n: nat)
    ensures n >= 2
  {
    match e
    case Num(_) => 5
    case Var(_) => 2
    case PostInc(_) | PostDec(_) | PreInc(_) | PreDec(_) => 11
    case LogNot(a) => ExprSize(a) + 1
    case Minus(a) => ExprSize(a) + 1
    case Bin(_, l, r) => ExprSize(l) + ExprSize(r) + 1
    case AndAlso(l, r) => ExprSize(l) + ExprSize(r) + 25
    case OrElse(l, r) => ExprSize(l) + ExprSize(r) + 35
    case Assign(_, a) => ExprSize(a) + 3
    case Update(_, _, a) => ExprSize(a) + 6
  }

  function DeclsSize(ds: Decls): nat {
    match ds
    case NoDecls => 0
    case Declare(_, None, rest) => DeclsSize(rest)
    case Declare(_, Some(e), rest) => ExprSize(e) + 2 + DeclsSize(rest)
  }

  function ClauseSize(c: Clause): nat {
    match c
    case NoClause => 0
    case DeclClause(ds) => DeclsSize(ds)
    case ExprClause(e) => ExprSize(e) + 1
  }

  function TestSize(test: Option<Expr>): nat {
    if test.None? then 0 else ExprSize(test.value) + 5
  }

  function StepSize(step: Option<Expr>): nat {
    if step.None? then 0 else ExprSize(step.value) + 1
  }

  function StmtSize(s: Stmt): nat {
    match s
    case Empty => 0
    case Block(ss) => StmtsSize(ss)
    case DeclStmt(ds) => DeclsSize(ds)
    case If(c, t) => ExprSize(c) + 5 + StmtSize(t)
    case IfElse(c, t, e) => ExprSize(c) + 5 + StmtSize(t) + 5 + StmtSize(e)
    case DoWhile(b, c) => StmtSize(b) + ExprSize(c) + 10
    case While(c, b) => ExprSize(c) + 5 + StmtSize(b) + 5
    case For(init, test, step, b) => ClauseSize(init) + TestSize(test) + StmtSize(b) + StepSize(step) + 5
    case PutsStmt(text) => |text| + 4
    case PutcStmt(e) => ExprSize(e) + 1
    case SleepStmt(e) => ExprSize(e) + 1
    case Break => 5
    case Continue => 5
    case Return(e) => ExprSize(e) + 1
    case ExprStmt(e) => ExprSize(e) + 1
  }

  function StmtsSize(ss: Stmts): nat {
    match ss
    case Nil => 0
    case Cons(s, rest) => StmtSize(s) + StmtsSize(rest)
  }

  // ----- instructions -----

  function GenExpr(e: Expr, base: int): seq<Instr> {
    match e
    case Num(v) => [PushConst(v)]
    case Var(x) => [PushVar(x)]
    case PostInc(x) => [PushVar(x), Dup, PushConst(1), Arith(Add), StoreVar(x)]
    case PostDec(x) => [PushVar(x), Dup, PushConst(1), Arith(Sub), StoreVar(x)]
    case PreInc(x) => [PushVar(x), PushConst(1), Arith(Add), Dup, StoreVar(x)]
    case PreDec(x) => [PushVar(x), PushConst(1), Arith(Sub), Dup, StoreVar(x)]
    case LogNot(a) => GenExpr(a, base) + [Not]
    case Minus(a) => GenExpr(a, base) + [Neg]
    case Bin(op, l, r) => GenExpr(l, base) + (GenExpr(r, base + ExprSize(l)) + [Arith(op)])
    case AndAlso(l, r) =>
      var rhs := base + ExprSize(l) + 5;
      var no := rhs + ExprSize(r) + 15;
      GenExpr(l, base) + ([Jz(U32(no))] +
      (GenExpr(r, rhs) + [Jz(U32(no)), PushConst(1), Jmp(U32(no + 5)), PushConst(0)]))
    case OrElse(l, r) =>
      var rhs := base + ExprSize(l) + 15;
      var no := rhs + ExprSize(r) + 15;
      GenExpr(l, base) + ([Jz(U32(rhs)), PushConst(1), Jmp(U32(no + 5))] +
      (GenExpr(r, rhs) + [Jz(U32(no)), PushConst(1), Jmp(U32(no + 5)), PushConst(0)]))
    case Assign(x, a) => GenExpr(a, base) + [Dup, StoreVar(x)]
    case Update(op, x, a) => [PushVar(x)] + (GenExpr(a, base + 2) + [Arith(op), Dup, StoreVar(x)])
  }

  function GenDecls(ds: Decls, base: int): seq<Instr> {
    match ds
    case NoDecls => []
    case Declare(_, None, rest) => GenDecls(rest, base)
    case Declare(x, Some(e), rest) =>
      GenExpr(e, base) + ([StoreVar(x)] + GenDecls(rest, base + ExprSize(e) + 2))
  }

  function GenClause(c: Clause, base: int): seq<Instr> {
    match c
    case NoClause => []
    case DeclClause(ds) => GenDecls(ds, base)
    case ExprClause(e) => GenExpr(e, base) + [Pop]
  }

  function GenTest(test: Option<Expr>, base: int, end: int): seq<Instr> {
    if test.None? then [] else GenExpr(test.value, base) + [Jz(U32(end))]
  }

  /** The step clause of a `for`, as compiled into the side buffer. */
  function GenStep(step: Option<Expr>): seq<Instr> {
    if step.None? then [] else GenExpr(step.value, STEP_BASE) + [Pop]
  }

  /** `brk` and `cont` are the operands of the break and continue jumps that
      belong to the loop around `s`. */
  function GenStmt(s: Stmt, base: int, brk: u32, cont: u32): seq<Instr> {
    match s
    case Empty => []
    case Block(ss) => GenStmts(ss, base, brk, cont)
    case DeclStmt(ds) => GenDecls(ds, base)
    case If(c, t) =>
      var body := base + ExprSize(c) + 5;
      GenExpr(c, base) + ([Jz(U32(body + StmtSize(t)))] + GenStmt(t, body, brk, cont))
    case IfElse(c, t, e) =>
      var body := base + ExprSize(c) + 5;
      var other := body + StmtSize(t) + 5;
      GenExpr(c, base) + ([Jz(U32(other))] +
      (GenStmt(t, body, brk, cont) + ([Jmp(U32(other + StmtSize(e)))] + GenStmt(e, other, brk, cont))))
    case DoWhile(b, c) =>
      var test := base + StmtSize(b);
      var end := test + ExprSize(c) + 10;
      GenStmt(b, base, U32(end), U32(test)) + (GenExpr(c, test) + [Jz(U32(end)), Jmp(U32(base))])
    case While(c, b) =>
      var body := base + ExprSize(c) + 5;
      var end := body + StmtSize(b) + 5;
      GenExpr(c, base) + ([Jz(U32(end))] + (GenStmt(b, body, U32(end), U32(base)) + [Jmp(U32(base))]))
    case For(init, test, step, b) =>
      var top := base + ClauseSize(init);
      var body := top + TestSize(test);
      var next := body + StmtSize(b);
      var end := next + StepSize(step) + 5;
      GenClause(init, base) + (GenTest(test, top, end) +
      (GenStmt(b, body, U32(end), U32(next)) + (GenStep(step) + [Jmp(U32(top))])))
    case PutsStmt(text) => [Puts(text + [0])]
    case PutcStmt(e) => GenExpr(e, base) + [Putc]
    case SleepStmt(e) => GenExpr(e, base) + [Sleep]
    case Break => [Jmp(brk)]
    case Continue => [Jmp(cont)]
    case Return(e) => GenExpr(e, base) + [Ret]
    case ExprStmt(e) => GenExpr(e, base) + [Pop]
  }

  function GenStmts(ss: Stmts, base: int, brk: u32, cont: u32): seq<Instr> {
    match ss
    case Nil => []
    case Cons(s, rest) => GenStmt(s, base, brk, cont) + GenStmts(rest, base + StmtSize(s), brk, cont)
  }

  // ----- sizes agree -----

  lemma {:induction false} GenExprSize(e: Expr, base: int)
    ensures Size(GenExpr(e, base)) == ExprSize(e)
    decreases e, 1
  {
    hide Size, U32, InstrSize;
    if e.AndAlso? || e.OrElse? {
      GenLogicSize(e, base);
    } else if e.Bin? {
      GenExprSize(e.l, base);
      GenExprSize(e.r, base + ExprSize(e.l));
      BinSize(GenExpr(e.l, base), GenExpr(e.r, base + ExprSize(e.l)), e.op);
    } else if e.Update? {
      GenExprSize(e.e, base + 2);
      UpdateSize(GenExpr(e.e, base + 2), e.op, e.x);
    } else {
      GenSmallSize(e, base);
    }
  }

  lemma {:induction false} GenLogicSize(e: Expr, base: int)
    requires e.AndAlso? || e.OrElse?
    ensures Size(GenExpr(e, base)) == ExprSize(e)
    decreases e, 0
  {
    hide Size, U32, InstrSize, GenExpr;
    UnfoldLogic(e, base);
    var rhs := base + ExprSize(e.l) + if e.AndAlso? then 5 else 15;
    var no := rhs + ExprSize(e.r) + 15;
    GenExprSize(e.l, base);
    GenExprSize(e.r, rhs);
    if e.AndAlso? {
      AndSize(GenExpr(e.l, base), GenExpr(e.r, rhs), U32(no), U32(no + 5));
    } else {
      OrSize(GenExpr(e.l, base), GenExpr(e.r, rhs), U32(rhs), U32(no), U32(no + 5));
    }
  }

  lemma {:induction false} GenSmallSize(e: Expr, base: int)
    requires !e.AndAlso? && !e.OrElse? && !e.Bin? && !e.Update?
    ensures Size(GenExpr(e, base)) == ExprSize(e)
    decreases e, 0
  {
    hide Size, GenExpr, InstrSize;
    if Leaf(e) {
      LeafSize(e, base);
    } else {
      GenExprSize(e.e, base);
      UnfoldUnary(e, base);
      TailSize(e);
      SizeAppend(GenExpr(e.e, base), UnaryTail(e));
    }
  }

  lemma LeafSize(e: Expr, base: int)
    requires Leaf(e)
    ensures Size(GenExpr(e, base)) == ExprSize(e)
  {
    hide Size;
    match e
    case Num(v) => SizeOne(PushConst(v));
    case Var(x) => SizeOne(PushVar(x));
    case PostInc(x) => Size5(PushVar(x), Dup, PushConst(1), Arith(Add), StoreVar(x));
    case PostDec(x) => Size5(PushVar(x), Dup, PushConst(1), Arith(Sub), StoreVar(x));
    case PreInc(x) => Size5(PushVar(x), PushConst(1), Arith(Add), Dup, StoreVar(x));
    case PreDec(x) => Size5(PushVar(x), PushConst(1), Arith(Sub), Dup, StoreVar(x));
  }

  lemma TailSize(e: Expr)
    requires e.LogNot? || e.Minus? || e.Assign?
    ensures ExprSize(e) == ExprSize(e.e) + Size(UnaryTail(e))
  {
    hide Size;
    SizeOne(Not);
    SizeOne(Neg);
    if e.Assign? {
      Size2(Dup, StoreVar(e.x));
    }
  }

  lemma BinSize(l: seq<Instr>, r: seq<Instr>, op: BinOp)
    ensures Size(l + (r + [Arith(op)])) == Size(l) + Size(r) + 1
  {
    SizeOne(Arith(op));
    SizeAppend(r, [Arith(op)]);
    SizeAppend(l, r + [Arith(op)]);
  }

  lemma UpdateSize(a: seq<Instr>, op: BinOp, x: byte)
    ensures Size([PushVar(x)] + (a + [Arith(op), Dup, StoreVar(x)])) == Size(a) + 6
  {
    var tail := [Arith(op), Dup, StoreVar(x)];
    Size3(Arith(op), Dup, StoreVar(x));
    SizeAppend(a, tail);
    SizeOne(PushVar(x));
    SizeAppend([PushVar(x)], a + tail);
  }

  lemma AndSize(l: seq<Instr>, r: seq<Instr>, no: u32, end: u32)
    ensures Size(l + ([Jz(no)] + (r + [Jz(no), PushConst(1), Jmp(end), PushConst(0)]))) == Size(l) + Size(r) + 25
  {
    var tail := [Jz(no), PushConst(1), Jmp(end), PushConst(0)];
    Size4(Jz(no), PushConst(1), Jmp(end), PushConst(0));
    SizeAppend(r, tail);
    SizeAppend([Jz(no)], r + tail);
    SizeAppend(l, [Jz(no)] + (r + tail));
  }

  lemma OrSize(l: seq<Instr>, r: seq<Instr>, rhs: u32, no: u32, end: u32)
    ensures Size(l + ([Jz(rhs), PushConst(1), Jmp(end)] +
      (r + [Jz(no), PushConst(1), Jmp(end), PushConst(0)]))) == Size(l) + Size(r) + 35
  {
    var tail := [Jz(no), PushConst(1), Jmp(end), PushConst(0)];
    var mid := [Jz(rhs), PushConst(1), Jmp(end)];
    Size4(Jz(no), PushConst(1), Jmp(end), PushConst(0));
    Size3(Jz(rhs), PushConst(1), Jmp(end));
    SizeAppend(r, tail);
    SizeAppend(mid, r + tail);
    SizeAppend(l, mid + (r + tail));
  }

  lemma Size2(a: Instr, b: Instr)
    ensures Size([a, b]) == InstrSize(a) + InstrSize(b)
  {
    assert [a, b][1..] == [b] && [b][1..] == [];
    assert Size([b]) == InstrSize(b);
  }

  lemma Size3(a: Instr, b: Instr, c: Instr)
    ensures Size([a, b, c]) == InstrSize(a) + InstrSize(b) + InstrSize(c)
  {
    Size2(b, c);
    assert [a, b, c][1..] == [b, c];
  }

  lemma Size4(a: Instr, b: Instr, c: Instr, d: Instr)
    ensures Size([a, b, c, d]) == InstrSize(a) + InstrSize(b) + InstrSize(c) + InstrSize(d)
  {
    Size3(b, c, d);
    assert [a, b, c, d][1..] == [b, c, d];
  }

  lemma Size5(a: Instr, b: Instr, c: Instr, d: Instr, e: Instr)
    ensures Size([a, b, c, d, e]) == InstrSize(a) + InstrSize(b) + InstrSize(c) + InstrSize(d) + InstrSize(e)
  {
    Size4(b, c, d, e);
    assert [a, b, c, d, e][1..] == [b, c, d, e];
  }

  lemma {:induction false} GenDeclsSize(ds: Decls, base: int)
    ensures Size(GenDecls(ds, base)) == DeclsSize(ds)
  {
    hide Size, U32, GenExpr, ExprSize;
    SizeNone();
    match ds
    case NoDecls =>
    case Declare(_, None, rest) => GenDeclsSize(rest, base);
    case Declare(x, Some(e), rest) =>
      GenExprSize(e, base);
      GenDeclsSize(rest, base + ExprSize(e) + 2);
      SizeOne(StoreVar(x));
      SizeAppend([StoreVar(x)], GenDecls(rest, base + ExprSize(e) + 2));
      SizeAppend(GenExpr(e, base), [StoreVar(x)] + GenDecls(rest, base + ExprSize(e) + 2));
  }

  lemma {:induction false} GenClauseSize(c: Clause, base: int)
    ensures Size(GenClause(c, base)) == ClauseSize(c)
  {
    match c
    case NoClause =>
    case DeclClause(ds) => GenDeclsSize(ds, base);
    case ExprClause(e) => GenExprSize(e, base); SizeAppend(GenExpr(e, base), [Pop]);
  }

  lemma {:induction false} GenTestSize(test: Option<Expr>, base: int, end: int)
    ensures Size(GenTest(test, base, end)) == TestSize(test)
  {
    if test.Some? {
      GenExprSize(test.value, base);
      SizeAppend(GenExpr(test.value, base), [Jz(U32(end))]);
    }
  }

  lemma {:induction false} GenStepSize(step: Option<Expr>)
    ensures Size(GenStep(step)) == StepSize(step)
  {
    if step.Some? {
      GenExprSize(step.value, STEP_BASE);
      SizeAppend(GenExpr(step.value, STEP_BASE), [Pop]);
    }
  }

  lemma {:induction false} GenStmtSize(s: Stmt, base: int, brk: u32, cont: u32)
    ensures Size(GenStmt(s, base, brk, cont)) == StmtSize(s)
    decreases s, 1
  {
    hide Size, U32, GenExpr, ExprSize;
    if s.IfElse? || s.If? {
      GenBranchSize(s, base, brk, cont);
    } else if s.DoWhile? || s.While? || s.For? {
      GenLoopSize(s, base, brk, cont);
    } else if s.PutcStmt? || s.SleepStmt? || s.Return? || s.ExprStmt? {
      GenExprSize(s.e, base);
      var i := if s.PutcStmt? then Putc else if s.SleepStmt? then Sleep else if s.Return? then Ret else Pop;
      SnocSize(GenExpr(s.e, base), i);
    } else if s.Block? {
      GenStmtsSize(s.body, base, brk, cont);
    } else if s.DeclStmt? {
      GenDeclsSize(s.ds, base);
    } else if s.PutsStmt? {
      SizeOne(Puts(s.text + [0]));
    } else {
      SizeOne(Jmp(brk));
      SizeOne(Jmp(cont));
      SizeNone();
    }
  }

  lemma SizeNone()
    ensures Size([]) == 0
  {
  }

  lemma SnocSize(a: seq<Instr>, i: Instr)
    requires InstrSize(i) == 1
    ensures Size(a + [i]) == Size(a) + 1
  {
    SizeOne(i);
    SizeAppend(a, [i]);
  }

  lemma {:induction false} GenStmtsSize(ss: Stmts, base: int, brk: u32, cont: u32)
    ensures Size(GenStmts(ss, base, brk, cont)) == StmtsSize(ss)
    decreases ss, 1
  {
    hide Size, U32, GenExpr, ExprSize, GenStmt, StmtSize;
    SizeNone();
    if ss.Cons? {
      GenStmtSize(ss.head, base, brk, cont);
      GenStmtsSize(ss.tail, base + StmtSize(ss.head), brk, cont);
      SizeAppend(GenStmt(ss.head, base, brk, cont), GenStmts(ss.tail, base + StmtSize(ss.head), brk, cont));
    }
  }

  lemma {:induction false} GenBranchSize(s: Stmt, base: int, brk: u32, cont: u32)
    requires s.If? || s.IfElse?
    ensures Size(GenStmt(s, base, brk, cont)) == StmtSize(s)
    decreases s, 0
  {
    hide Size, U32, InstrSize, GenExpr, ExprSize;
    GenExprSize(s.cond, base);
    var body := base + ExprSize(s.cond) + 5;
    GenStmtSize(s.thn, body, brk, cont);
    if s.If? {
      JumpSize(GenExpr(s.cond, base), Jz(U32(body + StmtSize(s.thn))), GenStmt(s.thn, body, brk, cont));
    } else {
      var other := body + StmtSize(s.thn) + 5;
      var t, e := GenStmt(s.thn, body, brk, cont), GenStmt(s.els, other, brk, cont);
      var jmp := Jmp(U32(other + StmtSize(s.els)));
      GenStmtSize(s.els, other, brk, cont);
      JumpSize(t, jmp, e);
      JumpSize(GenExpr(s.cond, base), Jz(U32(other)), t + ([jmp] + e));
    }
  }

  lemma JumpSize(a: seq<Instr>, j: Instr, b: seq<Instr>)
    requires j.Jmp? || j.Jz?
    ensures Size(a + ([j] + b)) == Size(a) + 5 + Size(b)
  {
    hide Size;
    SizeOne(j);
    SizeAppend([j], b);
    SizeAppend(a, [j] + b);
  }

  lemma {:induction false} GenLoopSize(s: Stmt, base: int, brk: u32, cont: u32)
    requires s.DoWhile? || s.While? || s.For?
    ensures Size(GenStmt(s, base, brk, cont)) == StmtSize(s)
    decreases s, 0
  {
    hide Size, U32, GenExpr, ExprSize;
    if s.DoWhile? {
      var test := base + StmtSize(s.loopBody);
      var end := test + ExprSize(s.cond) + 10;
      var b, c := GenStmt(s.loopBody, base, U32(end), U32(test)), GenExpr(s.cond, test);
      GenStmtSize(s.loopBody, base, U32(end), U32(test));
      GenExprSize(s.cond, test);
      SizeNone();
      JumpSize(c, Jz(U32(end)), [Jmp(U32(base))]);
      SizeOne(Jmp(U32(base)));
      assert [Jz(U32(end)), Jmp(U32(base))] == [Jz(U32(end))] + [Jmp(U32(base))];
      SizeAppend(b, c + [Jz(U32(end)), Jmp(U32(base))]);
    } else if s.While? {
      var body := base + ExprSize(s.cond) + 5;
      var end := body + StmtSize(s.loopBody) + 5;
      var b, c := GenStmt(s.loopBody, body, U32(end), U32(base)), GenExpr(s.cond, base);
      GenStmtSize(s.loopBody, body, U32(end), U32(base));
      GenExprSize(s.cond, base);
      SizeOne(Jmp(U32(base)));
      SizeAppend(b, [Jmp(U32(base))]);
      JumpSize(c, Jz(U32(end)), b + [Jmp(U32(base))]);
    } else {
      var top := base + ClauseSize(s.init);
      var body := top + TestSize(s.test);
      var next := body + StmtSize(s.loopBody);
      var end := next + StepSize(s.step) + 5;
      var b := GenStmt(s.loopBody, body, U32(end), U32(next));
      GenClauseSize(s.init, base);
      GenTestSize(s.test, top, end);
      GenStmtSize(s.loopBody, body, U32(end), U32(next));
      GenStepSize(s.step);
      SizeOne(Jmp(U32(top)));
      SizeAppend(GenStep(s.step), [Jmp(U32(top))]);
      SizeAppend(b, GenStep(s.step) + [Jmp(U32(top))]);
      SizeAppend(GenTest(s.test, top, end), b + (GenStep(s.step) + [Jmp(U32(top))]));
      SizeAppend(GenClause(s.init, base), GenTest(s.test, top, end) + (b + (GenStep(s.step) + [Jmp(U32(top))])));
    }
  }

  // ----- the for-step side buffer -----

  /** Whether an expression contains a short-circuit operator. */
  predicate HasLogic(e: Expr) {
    match e
    case AndAlso(_, _) => true
    case OrElse(_, _) => true
    case LogNot(a) => HasLogic(a)
    case Minus(a) => HasLogic(a)
    case Bin(_, l, r) => HasLogic(l) || HasLogic(r)
    case Assign(_, a) => HasLogic(a)
    case Update(_, _, a) => HasLogic(a)
    case _ => false
  }

  lemma UnfoldUnary(e: Expr, b: int)
    requires e.LogNot? || e.Minus? || e.Assign?
    ensures GenExpr(e, b) == GenExpr(e.e, b) + UnaryTail(e)
  {
  }

  function UnaryTail(e: Expr): seq<Instr>
    requires e.LogNot? || e.Minus? || e.Assign?
  {
    if e.LogNot? then [Not] else if e.Minus? then [Neg] else [Dup, StoreVar(e.x)]
  }

  lemma UnfoldBin(e: Expr, b: int)
    requires e.Bin?
    ensures GenExpr(e, b) == GenExpr(e.l, b) + (GenExpr(e.r, b + ExprSize(e.l)) + [Arith(e.op)])
  {
  }

  lemma UnfoldUpdate(e: Expr, b: int)
    requires e.Update?
    ensures GenExpr(e, b) == [PushVar(e.x)] + (GenExpr(e.e, b + 2) + [Arith(e.op), Dup, StoreVar(e.x)])
  {
  }

  /** The part of a short-circuit operator between its operands, and the
      offset of the right operand. */
  function LogicMid(e: Expr, b: int): seq<Instr>
    requires e.AndAlso? || e.OrElse?
  {
    var no := RightBase(e, b) + ExprSize(e.r) + 15;
    if e.AndAlso? then [Jz(U32(no))]
    else [Jz(U32(RightBase(e, b))), PushConst(1), Jmp(U32(no + 5))]
  }

  function RightBase(e: Expr, b: int): int
    requires e.AndAlso? || e.OrElse?
  {
    b + ExprSize(e.l) + if e.AndAlso? then 5 else 15
  }

  function LogicTail(e: Expr, b: int): seq<Instr>
    requires e.AndAlso? || e.OrElse?
  {
    var no := RightBase(e, b) + ExprSize(e.r) + 15;
    [Jz(U32(no)), PushConst(1), Jmp(U32(no + 5)), PushConst(0)]
  }

  lemma UnfoldLogic(e: Expr, b: int)
    requires e.AndAlso? || e.OrElse?
    ensures GenExpr(e, b) ==
      GenExpr(e.l, b) + (LogicMid(e, b) + (GenExpr(e.r, RightBase(e, b)) + LogicTail(e, b)))
  {
  }

  predicate Leaf(e: Expr) {
    e.Num? || e.Var? || e.PostInc? || e.PostDec? || e.PreInc? || e.PreDec?
  }

  lemma LeafMoves(e: Expr, b: int, c: int)
    requires Leaf(e)
    ensures GenExpr(e, b) == GenExpr(e, c)
  {
  }

  lemma {:induction false} GenExprLength(e: Expr, b: int, c: int)
    ensures |GenExpr(e, b)| == |GenExpr(e, c)|
  {
    hide GenExpr, U32, ExprSize;
    if Leaf(e) {
      LeafMoves(e, b, c);
    } else if e.AndAlso? || e.OrElse? {
      UnfoldLogic(e, b);
      UnfoldLogic(e, c);
      GenExprLength(e.l, b, c);
      GenExprLength(e.r, RightBase(e, b), RightBase(e, c));
    } else if e.Bin? {
      UnfoldBin(e, b);
      UnfoldBin(e, c);
      GenExprLength(e.l, b, c);
      GenExprLength(e.r, b + ExprSize(e.l), c + ExprSize(e.l));
    } else if e.Update? {
      UnfoldUpdate(e, b);
      UnfoldUpdate(e, c);
      GenExprLength(e.e, b + 2, c + 2);
    } else {
      UnfoldUnary(e, b);
      UnfoldUnary(e, c);
      GenExprLength(e.e, b, c);
    }
  }

  lemma AppendInjective<T>(a: seq<T>, b: seq<T>, x: seq<T>, y: seq<T>)
    requires |a| == |b|
    ensures a + x == b + y <==> a == b && x == y
  {
    if a + x == b + y {
      assert a == (a + x)[..|a|] == b;
      assert x == (a + x)[|a|..] == y;
    }
  }

  lemma U32Shift(b: int, c: int, d: int)
    requires U32(b) != U32(c)
    ensures U32(b + d) != U32(c + d)
  {
  }

  /** Compiled code of an expression can be moved exactly when it contains no
      short-circuit operator: every such operator compiles to absolute jumps.
      The displacement must not be a multiple of the 32-bit operand range. */
  lemma {:induction false} Relocatable(e: Expr, b: int, c: int)
    requires U32(b) != U32(c)
    ensures GenExpr(e, b) == GenExpr(e, c) <==> !HasLogic(e)
  {
    hide GenExpr, U32, ExprSize;
    if Leaf(e) {
      LeafMoves(e, b, c);
    } else if e.AndAlso? || e.OrElse? {
      UnfoldLogic(e, b);
      UnfoldLogic(e, c);
      GenExprLength(e.l, b, c);
      AppendInjective(GenExpr(e.l, b), GenExpr(e.l, c),
        LogicMid(e, b) + (GenExpr(e.r, RightBase(e, b)) + LogicTail(e, b)),
        LogicMid(e, c) + (GenExpr(e.r, RightBase(e, c)) + LogicTail(e, c)));
      AppendInjective(LogicMid(e, b), LogicMid(e, c),
        GenExpr(e.r, RightBase(e, b)) + LogicTail(e, b), GenExpr(e.r, RightBase(e, c)) + LogicTail(e, c));
      MidMoves(e, b, c);
    } else if e.Bin? {
      UnfoldBin(e, b);
      UnfoldBin(e, c);
      var m := ExprSize(e.l);
      var rb, rc := GenExpr(e.r, b + m), GenExpr(e.r, c + m);
      Relocatable(e.l, b, c);
      U32Shift(b, c, m);
      Relocatable(e.r, b + m, c + m);
      GenExprLength(e.l, b, c);
      GenExprLength(e.r, b + m, c + m);
      AppendInjective(GenExpr(e.l, b), GenExpr(e.l, c), rb + [Arith(e.op)], rc + [Arith(e.op)]);
      AppendInjective(rb, rc, [Arith(e.op)], [Arith(e.op)]);
    } else if e.Update? {
      UnfoldUpdate(e, b);
      UnfoldUpdate(e, c);
      U32Shift(b, c, 2);
      Relocatable(e.e, b + 2, c + 2);
      GenExprLength(e.e, b + 2, c + 2);
      var tail := [Arith(e.op), Dup, StoreVar(e.x)];
      AppendInjective([PushVar(e.x)], [PushVar(e.x)], GenExpr(e.e, b + 2) + tail, GenExpr(e.e, c + 2) + tail);
      AppendInjective(GenExpr(e.e, b + 2), GenExpr(e.e, c + 2), tail, tail);
    } else {
      UnfoldUnary(e, b);
      UnfoldUnary(e, c);
      Relocatable(e.e, b, c);
      GenExprLength(e.e, b, c);
      AppendInjective(GenExpr(e.e, b), GenExpr(e.e, c), UnaryTail(e), UnaryTail(e));
    }
  }

  lemma MidMoves(e: Expr, b: int, c: int)
    requires e.AndAlso? || e.OrElse?
    requires U32(b) != U32(c)
    ensures LogicMid(e, b) != LogicMid(e, c)
  {
    hide U32, ExprSize;
    var d := ExprSize(e.l) + if e.AndAlso? then 5 + ExprSize(e.r) + 15 else 15;
    U32Shift(b, c, d);
    assert LogicMid(e, b)[0] == Jz(U32(b + d)) && LogicMid(e, c)[0] == Jz(U32(c + d));
  }
}
