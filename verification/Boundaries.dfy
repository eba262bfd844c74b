/** Instruction boundaries: the offsets at which the stack discipline gives a
    height are exactly those at which an instruction of the program starts, so
    every jump in the emitted code leads to the start of an instruction or
    ends the program. */
module Boundaries {
  import opened Basics
  import opened Bytecode
  import opened Source
  import opened CodeGen
  import opened SimulateStmt
  import opened Toycc
  import opened StackDiscipline
  import Limits

  /** An instruction of `ins` starts at offset `o`. */
  predicate Start(ins: seq<Instr>, o: int) {
    ins != [] && (o == 0 || Start(ins[1..], o - InstrSize(ins[0])))
  }

  /** A start is the total size of the instructions before one of them. */
  lemma {:induction false} StartIs(ins: seq<Instr>, o: int)
    ensures Start(ins, o) <==> exists k: nat :: k < |ins| && o == Size(ins[..k])
  {
    hide InstrSize;
    if ins != [] {
      var rest := o - InstrSize(ins[0]);
      StartIs(ins[1..], rest);
      forall k: nat | k < |ins[1..]| ensures Size(ins[..k + 1]) == InstrSize(ins[0]) + Size(ins[1..][..k]) {
        assert ins[..k + 1][1..] == ins[1..][..k];
      }
      assert Size(ins[..0]) == 0;
      if k: nat :| k < |ins| && o == Size(ins[..k]) && k > 0 {
        assert ins[..k] == ins[..(k - 1) + 1];
        assert rest == Size(ins[1..][..k - 1]);
      }
      if Start(ins[1..], rest) {
        var k: nat :| k < |ins[1..]| && rest == Size(ins[1..][..k]);
        assert o == Size(ins[..k + 1]);
      }
    }
  }

  lemma {:induction false} StartBounds(ins: seq<Instr>, o: int)
    ensures Start(ins, o) ==> 0 <= o < Size(ins)
  {
    hide InstrSize;
    if ins != [] {
      StartBounds(ins[1..], o - InstrSize(ins[0]));
    }
  }

  /** Starts in joined code are starts in the first part or in the second. */
  lemma {:induction false} StartJoin(a: seq<Instr>, b: seq<Instr>, o: int)
    ensures Start(a + b, o) <==> if o < Size(a) then Start(a, o) else Start(b, o - Size(a))
  {
    hide InstrSize;
    if a == [] {
      assert a + b == b;
      StartBounds(b, o);
    } else {
      assert (a + b)[0] == a[0] && (a + b)[1..] == a[1..] + b;
      StartJoin(a[1..], b, o - InstrSize(a[0]));
      StartBounds(a[1..], o - InstrSize(a[0]));
    }
  }

  lemma StartNone(o: int)
    ensures !Start([], o)
  {
  }

  lemma StartOne(i: Instr, o: int)
    ensures Start([i], o) <==> o == 0
  {
    assert [i][1..] == [];
  }

  lemma Start2(i: Instr, j: Instr, o: int)
    ensures Start([i, j], o) <==> o == 0 || o == InstrSize(i)
  {
    hide InstrSize;
    assert [i, j][1..] == [j];
    StartOne(j, o - InstrSize(i));
  }

  lemma Start3(i: Instr, j: Instr, k: Instr, o: int)
    ensures Start([i, j, k], o) <==> o == 0 || o == InstrSize(i) || o == InstrSize(i) + InstrSize(j)
  {
    hide InstrSize;
    assert [i, j, k][1..] == [j, k];
    Start2(j, k, o - InstrSize(i));
  }

  lemma Start4(i: Instr, j: Instr, k: Instr, l: Instr, o: int)
    ensures Start([i, j, k, l], o) <==>
      o == 0 || o == InstrSize(i) || o == InstrSize(i) + InstrSize(j) || o == InstrSize(i) + InstrSize(j) + InstrSize(k)
  {
    hide InstrSize;
    assert [i, j, k, l][1..] == [j, k, l];
    Start3(j, k, l, o - InstrSize(i));
  }

  lemma Start5(i: Instr, j: Instr, k: Instr, l: Instr, m: Instr, o: int)
    ensures Start([i, j, k, l, m], o) <==>
      o == 0 || o == InstrSize(i) || o == InstrSize(i) + InstrSize(j) || o == InstrSize(i) + InstrSize(j) + InstrSize(k) ||
      o == InstrSize(i) + InstrSize(j) + InstrSize(k) + InstrSize(l)
  {
    hide InstrSize;
    assert [i, j, k, l, m][1..] == [j, k, l, m];
    Start4(j, k, l, m, o - InstrSize(i));
  }

  // ----- expressions -----

  /** The discipline gives a height exactly where an instruction of the
      expression starts; `b` is the base its jumps were computed for. */
  lemma {:induction false} ExprStarts(e: Expr, b: int, base: int, h: nat, pc: int)
    ensures HeightE(e, base, h, pc).Some? <==> Start(GenExpr(e, b), pc - base)
    decreases e, 1
  {
    hide Start, Size, GenExpr, ExprSize, U32;
    if Leaf(e) {
      LeafStarts(e, b, base, h, pc);
    } else if e.AndAlso? || e.OrElse? {
      LogicStarts(e, b, base, h, pc);
    } else if e.Bin? {
      UnfoldBin(e, b);
      var right := base + ExprSize(e.l);
      var tail := GenExpr(e.r, b + ExprSize(e.l)) + [Arith(e.op)];
      GenExprSize(e.l, b);
      GenExprSize(e.r, b + ExprSize(e.l));
      StartJoin(GenExpr(e.l, b), tail, pc - base);
      StartJoin(GenExpr(e.r, b + ExprSize(e.l)), [Arith(e.op)], pc - right);
      StartOne(Arith(e.op), pc - right - ExprSize(e.r));
      ExprStarts(e.l, b, base, h, pc);
      ExprStarts(e.r, b + ExprSize(e.l), right, h + 1, pc);
    } else if e.Update? {
      UpdateStarts(e, b, base, h, pc);
    } else {
      UnaryStarts(e, b, base, h, pc);
    }
  }

  lemma LeafStarts(e: Expr, b: int, base: int, h: nat, pc: int)
    requires Leaf(e)
    ensures HeightE(e, base, h, pc).Some? <==> Start(GenExpr(e, b), pc - base)
  {
    hide Start;
    var o := pc - base;
    match e
    case Num(v) => StartOne(PushConst(v), o);
    case Var(x) => StartOne(PushVar(x), o);
    case PostInc(x) => Start5(PushVar(x), Dup, PushConst(1), Arith(Add), StoreVar(x), o);
    case PostDec(x) => Start5(PushVar(x), Dup, PushConst(1), Arith(Sub), StoreVar(x), o);
    case PreInc(x) => Start5(PushVar(x), PushConst(1), Arith(Add), Dup, StoreVar(x), o);
    case PreDec(x) => Start5(PushVar(x), PushConst(1), Arith(Sub), Dup, StoreVar(x), o);
  }

  lemma {:induction false} UnaryStarts(e: Expr, b: int, base: int, h: nat, pc: int)
    requires e.LogNot? || e.Minus? || e.Assign?
    ensures HeightE(e, base, h, pc).Some? <==> Start(GenExpr(e, b), pc - base)
    decreases e, 0
  {
    hide Start, Size, GenExpr, ExprSize;
    UnfoldUnary(e, b);
    GenExprSize(e.e, b);
    var o := pc - base - ExprSize(e.e);
    StartJoin(GenExpr(e.e, b), UnaryTail(e), pc - base);
    ExprStarts(e.e, b, base, h, pc);
    if e.Assign? {
      Start2(Dup, StoreVar(e.x), o);
    } else {
      StartOne(if e.LogNot? then Not else Neg, o);
    }
  }

  lemma {:induction false} UpdateStarts(e: Expr, b: int, base: int, h: nat, pc: int)
    requires e.Update?
    ensures HeightE(e, base, h, pc).Some? <==> Start(GenExpr(e, b), pc - base)
    decreases e, 0
  {
    hide Start, Size, GenExpr, ExprSize;
    UnfoldUpdate(e, b);
    GenExprSize(e.e, b + 2);
    SizeOne(PushVar(e.x));
    var o := pc - base;
    StartJoin([PushVar(e.x)], GenExpr(e.e, b + 2) + [Arith(e.op), Dup, StoreVar(e.x)], o);
    StartOne(PushVar(e.x), o);
    StartJoin(GenExpr(e.e, b + 2), [Arith(e.op), Dup, StoreVar(e.x)], o - 2);
    Start3(Arith(e.op), Dup, StoreVar(e.x), o - 2 - ExprSize(e.e));
    ExprStarts(e.e, b + 2, base + 2, h + 1, pc);
  }

  lemma {:induction false} LogicStarts(e: Expr, b: int, base: int, h: nat, pc: int)
    requires e.AndAlso? || e.OrElse?
    ensures HeightE(e, base, h, pc).Some? <==> Start(GenExpr(e, b), pc - base)
    decreases e, 0
  {
    hide Start, Size, GenExpr, ExprSize, LogicMid, LogicTail;
    UnfoldLogic(e, b);
    var mid, tail := LogicMid(e, b), LogicTail(e, b);
    var l, r := GenExpr(e.l, b), GenExpr(e.r, RightBase(e, b));
    GenExprSize(e.l, b);
    GenExprSize(e.r, RightBase(e, b));
    MidStarts(e, b, pc - base - ExprSize(e.l), h);
    var jz := base + ExprSize(e.l);
    var m := if e.AndAlso? then 5 else 15;
    StartJoin(l, mid + (r + tail), pc - base);
    StartJoin(mid, r + tail, pc - jz);
    StartJoin(r, tail, pc - jz - m);
    TailStarts(e, b, pc - jz - m - ExprSize(e.r), h);
    StartBounds(r, pc - jz - m);
    ExprStarts(e.l, b, base, h, pc);
    ExprStarts(e.r, RightBase(e, b), jz + m, h, pc);
  }

  lemma MidStarts(e: Expr, b: int, o: int, h: nat)
    requires e.AndAlso? || e.OrElse?
    ensures Size(LogicMid(e, b)) == if e.AndAlso? then 5 else 15
    ensures o < (if e.AndAlso? then 5 else 15) ==>
      (Start(LogicMid(e, b), o) <==> if e.AndAlso? then o == 0 else TruthHeight(o, h).Some?)
  {
    hide Start, Size, ExprSize, U32;
    var no := RightBase(e, b) + ExprSize(e.r) + 15;
    if e.AndAlso? {
      StartOne(Jz(U32(no)), o);
      SizeOne(Jz(U32(no)));
    } else {
      Start3(Jz(U32(RightBase(e, b))), PushConst(1), Jmp(U32(no + 5)), o);
      Size3(Jz(U32(RightBase(e, b))), PushConst(1), Jmp(U32(no + 5)));
    }
  }

  lemma TailStarts(e: Expr, b: int, o: int, h: nat)
    requires e.AndAlso? || e.OrElse?
    ensures Start(LogicTail(e, b), o) <==> TruthHeight(o, h).Some?
  {
    hide Start, ExprSize, U32;
    var no := RightBase(e, b) + ExprSize(e.r) + 15;
    Start4(Jz(U32(no)), PushConst(1), Jmp(U32(no + 5)), PushConst(0), o);
  }

  // ----- statements -----

  /** An expression and the one instruction after it. */
  lemma ThenStarts(e: Expr, b: int, i: Instr, base: int, pc: int)
    ensures HeightX(e, base, pc).Some? <==> Start(GenExpr(e, b) + [i], pc - base)
  {
    hide Start, Size, GenExpr, ExprSize, HeightE;
    GenExprSize(e, b);
    StartJoin(GenExpr(e, b), [i], pc - base);
    StartOne(i, pc - base - ExprSize(e));
    ExprStarts(e, b, base, 0, pc);
  }

  /** The same in front of more code. */
  lemma ThenMore(e: Expr, b: int, i: Instr, more: seq<Instr>, base: int, pc: int)
    ensures var after := base + ExprSize(e) + InstrSize(i);
      Start(GenExpr(e, b) + ([i] + more), pc - base) <==>
        if pc < after then HeightX(e, base, pc).Some? else Start(more, pc - after)
  {
    hide Start, Size, GenExpr, ExprSize, HeightE, InstrSize;
    var a := GenExpr(e, b);
    assert a + ([i] + more) == (a + [i]) + more;
    GenExprSize(e, b);
    SizeOne(i);
    SizeAppend(a, [i]);
    StartJoin(a + [i], more, pc - base);
    ThenStarts(e, b, i, base, pc);
  }

  lemma {:induction false} DeclsStarts(ds: Decls, base: int, pc: int)
    ensures HeightD(ds, base, pc).Some? <==> Start(GenDecls(ds, base), pc - base)
  {
    hide Start, GenExpr, ExprSize, HeightE;
    match ds
    case NoDecls => StartNone(pc - base);
    case Declare(_, None, rest) => DeclsStarts(rest, base, pc);
    case Declare(x, Some(e), rest) =>
      var next := base + ExprSize(e) + 2;
      ThenMore(e, base, StoreVar(x), GenDecls(rest, next), base, pc);
      DeclsStarts(rest, next, pc);
  }

  lemma ClauseStarts(c: Clause, base: int, pc: int)
    ensures HeightC(c, base, pc).Some? <==> Start(GenClause(c, base), pc - base)
  {
    hide Start, GenExpr, ExprSize, HeightE, HeightX;
    match c
    case NoClause => StartNone(pc - base);
    case DeclClause(ds) => DeclsStarts(ds, base, pc);
    case ExprClause(e) => ThenStarts(e, base, Pop, base, pc);
  }

  lemma {:induction false} StmtStarts(s: Stmt, base: int, brk: u32, cont: u32, pc: int)
    ensures HeightS(s, base, pc).Some? <==> Start(GenStmt(s, base, brk, cont), pc - base)
    decreases s, 1
  {
    hide Start, GenExpr, ExprSize, HeightE, HeightX, U32, StmtSize, InstrSize, GenStmt, HeightS;
    if s.Block? {
      BlockStarts(s, base, brk, cont, pc);
    } else if s.If? || s.IfElse? {
      BranchStarts(s, base, brk, cont, pc);
    } else if s.While? {
      WhileStarts(s, base, brk, cont, pc);
    } else if s.DoWhile? {
      DoStarts(s, base, brk, cont, pc);
    } else if s.For? {
      ForLoopStarts(s, base, brk, cont, pc);
    } else {
      BasicStarts(s, base, brk, cont, pc);
    }
  }

  lemma BasicStarts(s: Stmt, base: int, brk: u32, cont: u32, pc: int)
    requires !s.Block? && !s.If? && !s.IfElse? && !s.While? && !s.DoWhile? && !s.For?
    ensures HeightS(s, base, pc).Some? <==> Start(GenStmt(s, base, brk, cont), pc - base)
  {
    hide Start, GenExpr, ExprSize, HeightE, HeightX, InstrSize;
    match s
    case Empty => StartNone(pc - base);
    case DeclStmt(ds) => DeclsStarts(ds, base, pc);
    case PutsStmt(text) => StartOne(Puts(text + [0]), pc - base);
    case PutcStmt(e) => ThenStarts(e, base, Putc, base, pc);
    case SleepStmt(e) => ThenStarts(e, base, Sleep, base, pc);
    case Break => StartOne(Jmp(brk), pc - base);
    case Continue => StartOne(Jmp(cont), pc - base);
    case Return(e) => ThenStarts(e, base, Ret, base, pc);
    case ExprStmt(e) => ThenStarts(e, base, Pop, base, pc);
  }

  lemma {:induction false} BlockStarts(s: Stmt, base: int, brk: u32, cont: u32, pc: int)
    requires s.Block?
    ensures HeightS(s, base, pc).Some? <==> Start(GenStmt(s, base, brk, cont), pc - base)
    decreases s, 0
  {
    hide Start, GenStmts, HeightL;
    ListStarts(s.body, base, brk, cont, pc);
  }

  lemma {:induction false} BranchStarts(s: Stmt, base: int, brk: u32, cont: u32, pc: int)
    requires s.If? || s.IfElse?
    ensures HeightS(s, base, pc).Some? <==> Start(GenStmt(s, base, brk, cont), pc - base)
    decreases s, 0
  {
    hide Start, GenExpr, ExprSize, HeightE, HeightX, U32, Size;
    var body := base + ExprSize(s.cond) + 5;
    var t := GenStmt(s.thn, body, brk, cont);
    var jmp := body + StmtSize(s.thn);
    GenStmtSize(s.thn, body, brk, cont);
    StmtStarts(s.thn, body, brk, cont, pc);
    if s.If? {
      ThenMore(s.cond, base, Jz(U32(jmp)), t, base, pc);
    } else {
      var i := Jmp(U32(jmp + 5 + StmtSize(s.els)));
      var e := GenStmt(s.els, jmp + 5, brk, cont);
      ThenMore(s.cond, base, Jz(U32(jmp + 5)), t + ([i] + e), base, pc);
      StartJoin(t, [i] + e, pc - body);
      StartJoin([i], e, pc - jmp);
      SizeOne(i);
      StartOne(i, pc - jmp);
      StmtStarts(s.els, jmp + 5, brk, cont, pc);
    }
  }

  lemma {:induction false} WhileStarts(s: Stmt, base: int, brk: u32, cont: u32, pc: int)
    requires s.While?
    ensures HeightS(s, base, pc).Some? <==> Start(GenStmt(s, base, brk, cont), pc - base)
    decreases s, 0
  {
    hide Start, GenExpr, ExprSize, HeightE, HeightX, U32, Size;
    var body := base + ExprSize(s.cond) + 5;
    var jmp := body + StmtSize(s.loopBody);
    var t := GenStmt(s.loopBody, body, U32(jmp + 5), U32(base));
    GenStmtSize(s.loopBody, body, U32(jmp + 5), U32(base));
    StmtStarts(s.loopBody, body, U32(jmp + 5), U32(base), pc);
    ThenMore(s.cond, base, Jz(U32(jmp + 5)), t + [Jmp(U32(base))], base, pc);
    StartJoin(t, [Jmp(U32(base))], pc - body);
    StartOne(Jmp(U32(base)), pc - jmp);
  }

  lemma {:induction false} DoStarts(s: Stmt, base: int, brk: u32, cont: u32, pc: int)
    requires s.DoWhile?
    ensures HeightS(s, base, pc).Some? <==> Start(GenStmt(s, base, brk, cont), pc - base)
    decreases s, 0
  {
    hide Start, GenExpr, ExprSize, HeightE, HeightX, U32, Size;
    var test := base + StmtSize(s.loopBody);
    var end := test + ExprSize(s.cond) + 10;
    var t, jmp := GenStmt(s.loopBody, base, U32(end), U32(test)), Jmp(U32(base));
    GenStmtSize(s.loopBody, base, U32(end), U32(test));
    StmtStarts(s.loopBody, base, U32(end), U32(test), pc);
    assert [Jz(U32(end)), jmp] == [Jz(U32(end))] + [jmp];
    StartJoin(t, GenExpr(s.cond, test) + [Jz(U32(end)), jmp], pc - base);
    ThenMore(s.cond, test, Jz(U32(end)), [jmp], test, pc);
    StartOne(jmp, pc - (end - 5));
  }

  lemma {:induction false} ForLoopStarts(s: Stmt, base: int, brk: u32, cont: u32, pc: int)
    requires s.For?
    ensures HeightS(s, base, pc).Some? <==> Start(GenStmt(s, base, brk, cont), pc - base)
    decreases s, 0
  {
    hide Start, U32, Size, GenClause, GenTest, GenStep, ClauseSize, TestSize, StepSize, HeightC, HeightO;
    var top := base + ClauseSize(s.init);
    var body := top + TestSize(s.test);
    var next := body + StmtSize(s.loopBody);
    var jmp := next + StepSize(s.step);
    var a, t := GenClause(s.init, base), GenTest(s.test, top, jmp + 5);
    var b := GenStmt(s.loopBody, body, U32(jmp + 5), U32(next));
    var step := GenStep(s.step);
    var i := Jmp(U32(top));
    GenClauseSize(s.init, base);
    GenTestSize(s.test, top, jmp + 5);
    GenStmtSize(s.loopBody, body, U32(jmp + 5), U32(next));
    GenStepSize(s.step);
    StartJoin(a, t + (b + (step + [i])), pc - base);
    StartJoin(t, b + (step + [i]), pc - top);
    StartJoin(b, step + [i], pc - body);
    StartJoin(step, [i], pc - next);
    StartOne(i, pc - jmp);
    ClauseStarts(s.init, base, pc);
    OptStarts(s.test, s.step, top, jmp + 5, next, pc);
    StmtStarts(s.loopBody, body, U32(jmp + 5), U32(next), pc);
  }

  lemma OptStarts(test: Option<Expr>, step: Option<Expr>, top: int, end: int, next: int, pc: int)
    ensures HeightO(test, top, pc).Some? <==> Start(GenTest(test, top, end), pc - top)
    ensures HeightO(step, next, pc).Some? <==> Start(GenStep(step), pc - next)
  {
    hide Start, GenExpr, HeightX, U32;
    StartNone(pc - top);
    StartNone(pc - next);
    if test.Some? {
      ThenStarts(test.value, top, Jz(U32(end)), top, pc);
    }
    if step.Some? {
      ThenStarts(step.value, STEP_BASE, Pop, next, pc);
    }
  }

  lemma {:induction false} ListStarts(ss: Stmts, base: int, brk: u32, cont: u32, pc: int)
    ensures HeightL(ss, base, pc).Some? <==> Start(GenStmts(ss, base, brk, cont), pc - base)
    decreases ss, 1
  {
    hide Start, Size, GenStmt, HeightS, StmtSize;
    match ss
    case Nil => StartNone(pc - base);
    case Cons(s, rest) =>
      var next := base + StmtSize(s);
      GenStmtSize(s, base, brk, cont);
      StartJoin(GenStmt(s, base, brk, cont), GenStmts(rest, next, brk, cont), pc - base);
      StmtStarts(s, base, brk, cont, pc);
      ListStarts(rest, next, brk, cont, pc);
  }

  // ----- whole programs -----

  /** The offsets at which the discipline gives a height are the instruction
      boundaries of the program, no more and no fewer. */
  lemma {:induction false} HeightsAtBoundaries(ss: Stmts, pc: int)
    ensures HeightP(ss, pc).Some? <==>
      exists k: nat :: k < |GenProgram(ss)| && pc == Size(GenProgram(ss)[..k])
  {
    hide Start, Size, GenStmts, HeightL, StmtsSize, AnyReturn;
    var body := GenStmts(ss, 0, 0, 0);
    GenStmtsSize(ss, 0, 0, 0);
    ListStarts(ss, 0, 0, 0, pc);
    var tail := if AnyReturn(ss) then [] else [PushConst(0), Ret];
    StartJoin(body, tail, pc);
    StartNone(pc - StmtsSize(ss));
    Start2(PushConst(0), Ret, pc - StmtsSize(ss));
    StartIs(GenProgram(ss), pc);
  }

  /** Instruction `k` of a program is what stands at its boundary. */
  lemma {:induction false} InstrAt(code: seq<byte>, base: nat, ins: seq<Instr>, k: nat)
    requires CodeAt(code, base, ins) && k < |ins|
    ensures CodeAt(code, base + Size(ins[..k]), [ins[k]])
  {
    hide CodeAt, InstrSize, Size;
    assert ins == ins[..k] + ins[k..];
    CodeAtAppend(code, base, ins[..k], ins[k..]);
    assert ins[k..] == [ins[k]] + ins[k + 1..];
    CodeAtAppend(code, base + Size(ins[..k]), [ins[k]], ins[k + 1..]);
  }

  lemma AtBoundary(code: seq<byte>, pc: nat, i: Instr)
    requires CodeAt(code, pc, [i])
    ensures pc < |code| && Fetch(code, pc) == Ins(i, pc + InstrSize(i))
  {
  }

  /** Every jump of a supported program, decoded from where it stands in the
      emitted code, leads to the first byte of an instruction of the program,
      except that a plain jump may lead just past the last one, in the programs
      that contain a return and end in a construct with an open exit. */
  lemma {:induction false} JumpsToBoundaries(ss: Stmts, k: nat)
    requires Supported(ss) && k < |GenProgram(ss)|
    ensures AllEncodable(GenProgram(ss))
    ensures var ins := GenProgram(ss);
      var code := Encode(ins);
      var pc := Size(ins[..k]);
      pc < |code| && Fetch(code, pc) == Ins(ins[k], pc + InstrSize(ins[k])) &&
      (ins[k].Jmp? || ins[k].Jz? ==>
        (exists j: nat :: j < |ins| && ins[k].target == Size(ins[..j])) ||
        (ins[k].Jmp? && ins[k].target == Size(ins) && AnyReturn(ss) && ListJumpsToEnd(ss, true)))
  {
    GenEncodable(ss);
    hide *;
    var ins := GenProgram(ss);
    FetchedAt(ins, k);
    if ins[k].Jmp? || ins[k].Jz? {
      JumpTarget(ss, k);
    }
  }

  lemma FetchedAt(ins: seq<Instr>, k: nat)
    requires AllEncodable(ins) && k < |ins|
    ensures var pc := Size(ins[..k]);
      pc < |Encode(ins)| && Fetch(Encode(ins), pc) == Ins(ins[k], pc + InstrSize(ins[k]))
  {
    hide *;
    WholeCode(ins);
    InstrAt(Encode(ins), 0, ins, k);
    AtBoundary(Encode(ins), Size(ins[..k]), ins[k]);
  }

  lemma JumpTarget(ss: Stmts, k: nat)
    requires Supported(ss) && k < |GenProgram(ss)| && (GenProgram(ss)[k].Jmp? || GenProgram(ss)[k].Jz?)
    ensures var ins := GenProgram(ss);
      (exists j: nat :: j < |ins| && ins[k].target == Size(ins[..j])) ||
      (ins[k].Jmp? && ins[k].target == Size(ins) && AnyReturn(ss) && ListJumpsToEnd(ss, true))
  {
    GenEncodable(ss);
    hide *;
    var ins := GenProgram(ss);
    var pc := Size(ins[..k]);
    FetchedAt(ins, k);
    HeightsAtBoundaries(ss, pc);
    JumpsKeepHeights(ss, pc);
    HeightsAtBoundaries(ss, ins[k].target);
    EncodeSize(ins);
    if ins[k].Jmp? && ins[k].target == Size(ins) {
      PastEnd(ss, k);
    }
  }

  lemma PastEnd(ss: Stmts, k: nat)
    requires Supported(ss) && k < |GenProgram(ss)| && GenProgram(ss)[k].Jmp?
    requires GenProgram(ss)[k].target == Size(GenProgram(ss))
    ensures AnyReturn(ss) && ListJumpsToEnd(ss, true)
  {
    GenEncodable(ss);
    hide GenProgram, AnyReturn, ListJumpsToEnd, Size, Encode, CodeAt, AllEncodable;
    ProgramCode(ss, Encode(GenProgram(ss)));
    EncodeSize(GenProgram(ss));
    Limits.JumpsPastCode(ss, true);
  }

  lemma WholeCode(ins: seq<Instr>)
    requires AllEncodable(ins)
    ensures CodeAt(Encode(ins), 0, ins)
  {
    hide CodeAt, Size, Encode;
    EncodeSize(ins);
    assert Encode(ins)[0..|Encode(ins)|] == Encode(ins);
    EncodedCodeAt(Encode(ins), 0, ins);
  }
}
