/** Where the operands of jumps are, and who fills each: every jump operand of a
    statement is filled by the statement itself, or left to the break or to the
    continue list of the loop around it, or known when it is emitted, and only
    one of these, once.  The emitter's methods say that they fill each position
    as often as is counted here. */
module Placeholders {
  import opened Basics
  import opened Bytecode
  import opened Source
  import opened CodeGen
  import opened Patching

  /** 1 if the operand of `i`, standing at `at`, is a jump's and at position `p`. */
  function OperandAt(i: Instr, at: nat, p: int): nat {
    if (i.Jmp? || i.Jz?) && p == at + 1 then 1 else 0
  }

  /** How many jumps of code that stands at `at` have their operand at `p`. */
  function Operands(ins: seq<Instr>, at: nat, p: int): nat {
    if ins == [] then 0 else OperandAt(ins[0], at, p) + Operands(ins[1..], at + InstrSize(ins[0]), p)
  }

  lemma {:induction false} OperandsJoin(a: seq<Instr>, b: seq<Instr>, at: nat, p: int)
    ensures Operands(a + b, at, p) == Operands(a, at, p) + Operands(b, at + Size(a), p)
    decreases |a|
  {
    hide InstrSize, OperandAt;
    if a == [] {
      assert a + b == b;
    } else {
      assert (a + b)[0] == a[0] && (a + b)[1..] == a[1..] + b;
      OperandsJoin(a[1..], b, at + InstrSize(a[0]), p);
    }
  }

  /** There is one jump operand where instruction `k` is a jump, and none
      elsewhere. */
  lemma {:induction false} OperandsAre(ins: seq<Instr>, at: nat, p: int)
    ensures Operands(ins, at, p) <= 1
    ensures Operands(ins, at, p) == 1 <==>
      exists k: nat :: k < |ins| && (ins[k].Jmp? || ins[k].Jz?) && p == at + Size(ins[..k]) + 1
    ensures p <= at ==> Operands(ins, at, p) == 0
    decreases |ins|
  {
    if ins != [] {
      var next := at + InstrSize(ins[0]);
      OperandsAre(ins[1..], next, p);
      assert Size(ins[..0]) == 0;
      forall k: nat | k < |ins[1..]| ensures Size(ins[..k + 1]) == InstrSize(ins[0]) + Size(ins[1..][..k]) {
        assert ins[..k + 1][1..] == ins[1..][..k];
      }
      if k: nat :| k < |ins| && (ins[k].Jmp? || ins[k].Jz?) && p == at + Size(ins[..k]) + 1 {
        if k > 0 {
          assert ins[..k] == ins[..(k - 1) + 1] && ins[1..][k - 1] == ins[k];
        }
      }
      if k: nat :| k < |ins[1..]| && (ins[1..][k].Jmp? || ins[1..][k].Jz?) && p == next + Size(ins[1..][..k]) + 1 {
        assert ins[k + 1] == ins[1..][k] && p == at + Size(ins[..k + 1]) + 1;
      }
    }
  }

  // ----- who fills position `p` how often -----

  function Hit(place: nat, p: int): nat {
    if p == place then 1 else 0
  }

  /** The two jumps in the ending of a short-circuit operator at `o`. */
  function EndFills(o: nat, p: int): nat {
    Hit(o + 1, p) + Hit(o + 11, p)
  }

  /** By the code of an expression at `at`. */
  function FillsE(e: Expr, at: nat, p: int): nat {
    match e
    case AndAlso(l, r) =>
      var jz := at + ExprSize(l);
      FillsE(l, at, p) + Hit(jz + 1, p) + FillsE(r, jz + 5, p) + EndFills(jz + 5 + ExprSize(r), p)
    case OrElse(l, r) =>
      var jz := at + ExprSize(l);
      FillsE(l, at, p) + Hit(jz + 1, p) + Hit(jz + 11, p) + FillsE(r, jz + 15, p) + EndFills(jz + 15 + ExprSize(r), p)
    case Bin(_, l, r) => FillsE(l, at, p) + FillsE(r, at + ExprSize(l), p)
    case LogNot(a) => FillsE(a, at, p)
    case Minus(a) => FillsE(a, at, p)
    case Assign(_, a) => FillsE(a, at, p)
    case Update(_, _, a) => FillsE(a, at + 2, p)
    case _ => 0
  }

  function FillsD(ds: Decls, at: nat, p: int): nat {
    match ds
    case NoDecls => 0
    case Declare(_, None, rest) => FillsD(rest, at, p)
    case Declare(_, Some(e), rest) => FillsE(e, at, p) + FillsD(rest, at + ExprSize(e) + 2, p)
  }

  function FillsC(c: Clause, at: nat, p: int): nat {
    match c
    case NoClause => 0
    case DeclClause(ds) => FillsD(ds, at, p)
    case ExprClause(e) => FillsE(e, at, p)
  }

  function FillsT(test: Option<Expr>, at: nat, p: int): nat {
    if test.None? then 0 else FillsE(test.value, at, p) + Hit(at + ExprSize(test.value) + 1, p)
  }

  function FillsO(step: Option<Expr>, at: nat, p: int): nat {
    if step.None? then 0 else FillsE(step.value, at, p)
  }

  /** How often `p` is on a patch list. */
  function Listed(sites: seq<nat>, p: int): nat {
    if sites == [] then 0 else Hit(sites[0], p) + Listed(sites[1..], p)
  }

  /** By a statement at `at`; a loop fills the sites its body has left to it. */
  function Fills(s: Stmt, at: nat, p: int): nat {
    match s
    case Block(ss) => ListFills(ss, at, p)
    case DeclStmt(ds) => FillsD(ds, at, p)
    case If(c, t) => FillsE(c, at, p) + Hit(at + ExprSize(c) + 1, p) + Fills(t, at + ExprSize(c) + 5, p)
    case IfElse(c, t, e) =>
      var body := at + ExprSize(c) + 5;
      FillsE(c, at, p) + Hit(at + ExprSize(c) + 1, p) + Fills(t, body, p) + Hit(body + StmtSize(t) + 1, p) +
      Fills(e, body + StmtSize(t) + 5, p)
    case DoWhile(b, c) =>
      var test := at + StmtSize(b);
      Fills(b, at, p) + Listed(Sites(b, at, true), p) + Listed(Sites(b, at, false), p) + FillsE(c, test, p) +
      Hit(test + ExprSize(c) + 1, p)
    case While(c, b) =>
      var body := at + ExprSize(c) + 5;
      FillsE(c, at, p) + Hit(at + ExprSize(c) + 1, p) + Fills(b, body, p) + Listed(Sites(b, body, true), p) +
      Listed(Sites(b, body, false), p)
    case For(init, test, step, b) =>
      var top := at + ClauseSize(init);
      var body := top + TestSize(test);
      FillsC(init, at, p) + FillsT(test, top, p) + Fills(b, body, p) + Listed(Sites(b, body, true), p) +
      Listed(Sites(b, body, false), p) + FillsO(step, body + StmtSize(b), p)
    case PutcStmt(e) => FillsE(e, at, p)
    case SleepStmt(e) => FillsE(e, at, p)
    case Return(e) => FillsE(e, at, p)
    case ExprStmt(e) => FillsE(e, at, p)
    case _ => 0
  }

  function ListFills(ss: Stmts, at: nat, p: int): nat {
    match ss
    case Nil => 0
    case Cons(s, rest) => Fills(s, at, p) + ListFills(rest, at + StmtSize(s), p)
  }

  /** Jumps back to the top of a loop, whose target is known when emitted. */
  function Backs(s: Stmt, at: nat, p: int): nat {
    match s
    case Block(ss) => ListBacks(ss, at, p)
    case If(c, t) => Backs(t, at + ExprSize(c) + 5, p)
    case IfElse(c, t, e) =>
      Backs(t, at + ExprSize(c) + 5, p) + Backs(e, at + ExprSize(c) + 5 + StmtSize(t) + 5, p)
    case DoWhile(b, c) => Backs(b, at, p) + Hit(at + StmtSize(s) - 4, p)
    case While(c, b) => Backs(b, at + ExprSize(c) + 5, p) + Hit(at + StmtSize(s) - 4, p)
    case For(init, test, step, b) => Backs(b, at + ClauseSize(init) + TestSize(test), p) + Hit(at + StmtSize(s) - 4, p)
    case _ => 0
  }

  function ListBacks(ss: Stmts, at: nat, p: int): nat {
    match ss
    case Nil => 0
    case Cons(s, rest) => Backs(s, at, p) + ListBacks(rest, at + StmtSize(s), p)
  }

  /** All the ways together. */
  function Ways(s: Stmt, at: nat, p: int): nat {
    Fills(s, at, p) + Listed(Sites(s, at, true), p) + Listed(Sites(s, at, false), p) + Backs(s, at, p)
  }

  function ListWays(ss: Stmts, at: nat, p: int): nat {
    ListFills(ss, at, p) + Listed(ListSites(ss, at, true), p) + Listed(ListSites(ss, at, false), p) + ListBacks(ss, at, p)
  }

  /** What is filled moves with the code. */
  lemma {:induction false} FillsShift(e: Expr, at: nat, d: nat, p: int)
    ensures FillsE(e, at + d, p + d) == FillsE(e, at, p)
    decreases e
  {
    hide ExprSize;
    match e
    case AndAlso(l, r) =>
      FillsShift(l, at, d, p);
      FillsShift(r, at + ExprSize(l) + 5, d, p);
    case OrElse(l, r) =>
      FillsShift(l, at, d, p);
      FillsShift(r, at + ExprSize(l) + 15, d, p);
    case Bin(_, l, r) =>
      FillsShift(l, at, d, p);
      FillsShift(r, at + ExprSize(l), d, p);
    case LogNot(a) => FillsShift(a, at, d, p);
    case Minus(a) => FillsShift(a, at, d, p);
    case Assign(_, a) => FillsShift(a, at, d, p);
    case Update(_, _, a) => FillsShift(a, at + 2, d, p);
    case _ =>
  }

  // ----- the ways are the operands -----

  lemma {:induction false} ListedJoin(a: seq<nat>, b: seq<nat>, p: int)
    ensures Listed(a + b, p) == Listed(a, p) + Listed(b, p)
    decreases |a|
  {
    if a == [] {
      assert a + b == b;
    } else {
      assert (a + b)[1..] == a[1..] + b;
      ListedJoin(a[1..], b, p);
    }
  }

  lemma OneOperand(i: Instr, at: nat, p: int)
    ensures Operands([i], at, p) == OperandAt(i, at, p)
  {
    assert [i][1..] == [];
    assert Operands([], at + InstrSize(i), p) == 0;
  }

  lemma OperandFirst(i: Instr, rest: seq<Instr>, at: nat, p: int)
    ensures Operands([i] + rest, at, p) == OperandAt(i, at, p) + Operands(rest, at + InstrSize(i), p)
  {
    assert ([i] + rest)[0] == i && ([i] + rest)[1..] == rest;
  }

  lemma {:induction false} NoOperands(ins: seq<Instr>, at: nat, p: int)
    requires forall k :: 0 <= k < |ins| ==> !ins[k].Jmp? && !ins[k].Jz?
    ensures Operands(ins, at, p) == 0
    decreases |ins|
  {
    hide InstrSize;
    if ins != [] {
      NoOperands(ins[1..], at + InstrSize(ins[0]), p);
    }
  }

  lemma {:induction false} ExprOperands(e: Expr, b: int, at: nat, p: int)
    ensures Operands(GenExpr(e, b), at, p) == FillsE(e, at, p)
    decreases e, 1
  {
    hide Operands, GenExpr, ExprSize;
    if Leaf(e) {
      LeafOperands(e, b, at, p);
    } else if e.AndAlso? || e.OrElse? {
      LogicOperands(e, b, at, p);
    } else if e.Bin? {
      UnfoldBin(e, b);
      var r := GenExpr(e.r, b + ExprSize(e.l));
      OperandsJoin(GenExpr(e.l, b), r + [Arith(e.op)], at, p);
      OperandsJoin(r, [Arith(e.op)], at + ExprSize(e.l), p);
      GenExprSize(e.l, b);
      OneOperand(Arith(e.op), at + ExprSize(e.l) + Size(r), p);
      ExprOperands(e.l, b, at, p);
      ExprOperands(e.r, b + ExprSize(e.l), at + ExprSize(e.l), p);
    } else if e.Update? {
      UnfoldUpdate(e, b);
      var a := GenExpr(e.e, b + 2);
      OperandFirst(PushVar(e.x), a + [Arith(e.op), Dup, StoreVar(e.x)], at, p);
      OperandsJoin(a, [Arith(e.op), Dup, StoreVar(e.x)], at + 2, p);
      NoOperands([Arith(e.op), Dup, StoreVar(e.x)], at + 2 + Size(a), p);
      ExprOperands(e.e, b + 2, at + 2, p);
    } else {
      UnfoldUnary(e, b);
      OperandsJoin(GenExpr(e.e, b), UnaryTail(e), at, p);
      NoOperands(UnaryTail(e), at + Size(GenExpr(e.e, b)), p);
      ExprOperands(e.e, b, at, p);
    }
  }

  lemma LeafOperands(e: Expr, b: int, at: nat, p: int)
    requires Leaf(e)
    ensures Operands(GenExpr(e, b), at, p) == 0 && FillsE(e, at, p) == 0
  {
    hide Operands;
    NoOperands(GenExpr(e, b), at, p);
  }

  lemma {:induction false} LogicOperands(e: Expr, b: int, at: nat, p: int)
    requires e.AndAlso? || e.OrElse?
    ensures Operands(GenExpr(e, b), at, p) == FillsE(e, at, p)
    decreases e, 0
  {
    hide Operands, GenExpr, ExprSize, LogicMid, LogicTail, Size;
    UnfoldLogic(e, b);
    var l, r := GenExpr(e.l, b), GenExpr(e.r, RightBase(e, b));
    var mid, tail := LogicMid(e, b), LogicTail(e, b);
    var jz := at + ExprSize(e.l);
    var right := jz + if e.AndAlso? then 5 else 15;
    GenExprSize(e.l, b);
    GenExprSize(e.r, RightBase(e, b));
    MidOperands(e, b, jz, p);
    TailOperands(e, b, right + ExprSize(e.r), p);
    OperandsJoin(l, mid + (r + tail), at, p);
    OperandsJoin(mid, r + tail, jz, p);
    OperandsJoin(r, tail, right, p);
    ExprOperands(e.l, b, at, p);
    ExprOperands(e.r, RightBase(e, b), right, p);
  }

  lemma MidOperands(e: Expr, b: int, at: nat, p: int)
    requires e.AndAlso? || e.OrElse?
    ensures Size(LogicMid(e, b)) == if e.AndAlso? then 5 else 15
    ensures Operands(LogicMid(e, b), at, p) == Hit(at + 1, p) + if e.AndAlso? then 0 else Hit(at + 11, p)
  {
    hide Operands, ExprSize, U32, Size;
    var mid := LogicMid(e, b);
    SizeOne(mid[0]);
    OneOperand(mid[0], at, p);
    if e.OrElse? {
      var i, j, k := mid[0], mid[1], mid[2];
      assert mid == [i] + ([j] + [k]);
      OperandFirst(i, [j] + [k], at, p);
      OperandFirst(j, [k], at + 5, p);
      OneOperand(k, at + 10, p);
      Size3(i, j, k);
    }
  }

  lemma TailOperands(e: Expr, b: int, at: nat, p: int)
    requires e.AndAlso? || e.OrElse?
    ensures Operands(LogicTail(e, b), at, p) == EndFills(at, p)
  {
    hide Operands, ExprSize, U32, Size;
    var t := LogicTail(e, b);
    assert t == [t[0]] + ([t[1]] + ([t[2]] + [t[3]]));
    OperandFirst(t[0], [t[1]] + ([t[2]] + [t[3]]), at, p);
    OperandFirst(t[1], [t[2]] + [t[3]], at + 5, p);
    OperandFirst(t[2], [t[3]], at + 10, p);
    OneOperand(t[3], at + 15, p);
  }

  /** An expression, the one instruction after it, and more code. */
  lemma ThenOperands(e: Expr, b: int, i: Instr, more: seq<Instr>, at: nat, p: int)
    ensures Operands(GenExpr(e, b) + ([i] + more), at, p) ==
      FillsE(e, at, p) + OperandAt(i, at + ExprSize(e), p) + Operands(more, at + ExprSize(e) + InstrSize(i), p)
  {
    hide Operands, GenExpr, ExprSize, FillsE, Size, OperandAt;
    GenExprSize(e, b);
    OperandsJoin(GenExpr(e, b), [i] + more, at, p);
    OperandFirst(i, more, at + ExprSize(e), p);
    ExprOperands(e, b, at, p);
  }

  lemma LastOperands(e: Expr, b: int, i: Instr, at: nat, p: int)
    ensures Operands(GenExpr(e, b) + [i], at, p) == FillsE(e, at, p) + OperandAt(i, at + ExprSize(e), p)
  {
    hide Operands, GenExpr, ExprSize, FillsE, OperandAt;
    assert [i] + [] == [i];
    ThenOperands(e, b, i, [], at, p);
    NoOperands([], at + ExprSize(e) + InstrSize(i), p);
  }

  lemma {:induction false} DeclsOperands(ds: Decls, b: int, at: nat, p: int)
    ensures Operands(GenDecls(ds, b), at, p) == FillsD(ds, at, p)
  {
    hide Operands, GenExpr, ExprSize, FillsE;
    match ds
    case NoDecls => NoOperands([], at, p);
    case Declare(_, None, rest) => DeclsOperands(rest, b, at, p);
    case Declare(x, Some(e), rest) =>
      ThenOperands(e, b, StoreVar(x), GenDecls(rest, b + ExprSize(e) + 2), at, p);
      DeclsOperands(rest, b + ExprSize(e) + 2, at + ExprSize(e) + 2, p);
  }

  lemma ClauseOperands(c: Clause, b: int, at: nat, p: int)
    ensures Operands(GenClause(c, b), at, p) == FillsC(c, at, p)
  {
    hide Operands, GenExpr, ExprSize, FillsE;
    match c
    case NoClause => NoOperands([], at, p);
    case DeclClause(ds) => DeclsOperands(ds, b, at, p);
    case ExprClause(e) => LastOperands(e, b, Pop, at, p);
  }

  lemma OptOperands(test: Option<Expr>, step: Option<Expr>, b: int, end: int, at: nat, next: nat, p: int)
    ensures Operands(GenTest(test, b, end), at, p) == FillsT(test, at, p)
    ensures Operands(GenStep(step), next, p) == FillsO(step, next, p)
  {
    hide Operands, GenExpr, ExprSize, FillsE, U32;
    NoOperands([], at, p);
    NoOperands([], next, p);
    if test.Some? {
      LastOperands(test.value, b, Jz(U32(end)), at, p);
    }
    if step.Some? {
      LastOperands(step.value, STEP_BASE, Pop, next, p);
    }
  }

  /** Each jump operand of a statement is reached in as many ways as there are
      jumps with an operand there. */
  lemma {:induction false} StmtOperands(s: Stmt, b: int, brk: u32, cont: u32, at: nat, p: int)
    ensures Operands(GenStmt(s, b, brk, cont), at, p) == Ways(s, at, p)
    decreases s, 1
  {
    hide Operands, GenStmt, Fills, Sites, Backs, StmtSize;
    if s.Block? {
      BlockOperands(s, b, brk, cont, at, p);
    } else if s.If? || s.IfElse? {
      BranchOperands(s, b, brk, cont, at, p);
    } else if s.While? {
      WhileOperands(s, b, brk, cont, at, p);
    } else if s.DoWhile? {
      DoOperands(s, b, brk, cont, at, p);
    } else if s.For? {
      ForOperands(s, b, brk, cont, at, p);
    } else {
      BasicOperands(s, b, brk, cont, at, p);
    }
  }

  lemma BasicOperands(s: Stmt, b: int, brk: u32, cont: u32, at: nat, p: int)
    requires !s.Block? && !s.If? && !s.IfElse? && !s.While? && !s.DoWhile? && !s.For?
    ensures Operands(GenStmt(s, b, brk, cont), at, p) == Ways(s, at, p)
  {
    hide Operands, GenExpr, ExprSize, FillsE, InstrSize;
    assert [at + 1][1..] == [];
    match s
    case Empty => NoOperands([], at, p);
    case DeclStmt(ds) => DeclsOperands(ds, b, at, p);
    case PutsStmt(text) => OneOperand(Puts(text + [0]), at, p);
    case PutcStmt(e) => LastOperands(e, b, Putc, at, p);
    case SleepStmt(e) => LastOperands(e, b, Sleep, at, p);
    case Break => OneOperand(Jmp(brk), at, p);
    case Continue => OneOperand(Jmp(cont), at, p);
    case Return(e) => LastOperands(e, b, Ret, at, p);
    case ExprStmt(e) => LastOperands(e, b, Pop, at, p);
  }

  lemma {:induction false} BlockOperands(s: Stmt, b: int, brk: u32, cont: u32, at: nat, p: int)
    requires s.Block?
    ensures Operands(GenStmt(s, b, brk, cont), at, p) == Ways(s, at, p)
    decreases s, 0
  {
    hide Operands, GenStmts, ListFills, ListSites, ListBacks, Listed;
    StmtsOperands(s.body, b, brk, cont, at, p);
  }

  /** What the parts of a conditional add up to. */
  lemma BranchWays(s: Stmt, at: nat, p: int)
    requires s.If? || s.IfElse?
    ensures var body := at + ExprSize(s.cond) + 5;
      var jmp := body + StmtSize(s.thn);
      Ways(s, at, p) == FillsE(s.cond, at, p) + Hit(body - 4, p) + Ways(s.thn, body, p) +
        if s.If? then 0 else Hit(jmp + 1, p) + Ways(s.els, jmp + 5, p)
  {
    hide FillsE, ExprSize, Listed, Hit;
    if s.IfElse? {
      var body := at + ExprSize(s.cond) + 5;
      var other := body + StmtSize(s.thn) + 5;
      ListedJoin(Sites(s.thn, body, true), Sites(s.els, other, true), p);
      ListedJoin(Sites(s.thn, body, false), Sites(s.els, other, false), p);
    }
  }

  lemma {:induction false} BranchOperands(s: Stmt, b: int, brk: u32, cont: u32, at: nat, p: int)
    requires s.If? || s.IfElse?
    ensures Operands(GenStmt(s, b, brk, cont), at, p) == Ways(s, at, p)
    decreases s, 0
  {
    hide Operands, GenExpr, ExprSize, FillsE, U32, Size, Ways, StmtSize;
    BranchWays(s, at, p);
    var c := ExprSize(s.cond);
    var t := GenStmt(s.thn, b + c + 5, brk, cont);
    StmtOperands(s.thn, b + c + 5, brk, cont, at + c + 5, p);
    if s.If? {
      ThenOperands(s.cond, b, Jz(U32(b + c + 5 + StmtSize(s.thn))), t, at, p);
    } else {
      var other := b + c + 5 + StmtSize(s.thn) + 5;
      var i := Jmp(U32(other + StmtSize(s.els)));
      var e := GenStmt(s.els, other, brk, cont);
      var jmp := at + c + 5 + StmtSize(s.thn);
      ThenOperands(s.cond, b, Jz(U32(other)), t + ([i] + e), at, p);
      GenStmtSize(s.thn, b + c + 5, brk, cont);
      OperandsJoin(t, [i] + e, at + c + 5, p);
      OperandFirst(i, e, jmp, p);
      StmtOperands(s.els, other, brk, cont, jmp + 5, p);
    }
  }

  /** A loop leaves nothing to the loop around it. */
  lemma LoopLists(s: Stmt, at: nat, p: int)
    requires s.While? || s.DoWhile? || s.For?
    ensures Ways(s, at, p) == Fills(s, at, p) + Backs(s, at, p)
  {
    hide Fills, Backs;
  }

  lemma {:induction false} WhileOperands(s: Stmt, b: int, brk: u32, cont: u32, at: nat, p: int)
    requires s.While?
    ensures Operands(GenStmt(s, b, brk, cont), at, p) == Ways(s, at, p)
    decreases s, 0
  {
    hide Operands, GenExpr, ExprSize, FillsE, U32, Size, Listed, Sites;
    LoopLists(s, at, p);
    var c := ExprSize(s.cond);
    var end := b + c + 5 + StmtSize(s.loopBody) + 5;
    var t := GenStmt(s.loopBody, b + c + 5, U32(end), U32(b));
    var jmp := at + c + 5 + StmtSize(s.loopBody);
    ThenOperands(s.cond, b, Jz(U32(end)), t + [Jmp(U32(b))], at, p);
    GenStmtSize(s.loopBody, b + c + 5, U32(end), U32(b));
    OperandsJoin(t, [Jmp(U32(b))], at + c + 5, p);
    OneOperand(Jmp(U32(b)), jmp, p);
    StmtOperands(s.loopBody, b + c + 5, U32(end), U32(b), at + c + 5, p);
  }

  lemma {:induction false} DoOperands(s: Stmt, b: int, brk: u32, cont: u32, at: nat, p: int)
    requires s.DoWhile?
    ensures Operands(GenStmt(s, b, brk, cont), at, p) == Ways(s, at, p)
    decreases s, 0
  {
    hide Operands, GenExpr, ExprSize, FillsE, U32, Size, Listed, Sites;
    LoopLists(s, at, p);
    var test := b + StmtSize(s.loopBody);
    var end := test + ExprSize(s.cond) + 10;
    var t, jmp := GenStmt(s.loopBody, b, U32(end), U32(test)), Jmp(U32(b));
    var o := at + StmtSize(s.loopBody);
    GenStmtSize(s.loopBody, b, U32(end), U32(test));
    assert [Jz(U32(end)), jmp] == [Jz(U32(end))] + [jmp];
    OperandsJoin(t, GenExpr(s.cond, test) + [Jz(U32(end)), jmp], at, p);
    ThenOperands(s.cond, test, Jz(U32(end)), [jmp], o, p);
    OneOperand(jmp, o + ExprSize(s.cond) + 5, p);
    StmtOperands(s.loopBody, b, U32(end), U32(test), at, p);
  }

  lemma {:induction false} ForOperands(s: Stmt, b: int, brk: u32, cont: u32, at: nat, p: int)
    requires s.For?
    ensures Operands(GenStmt(s, b, brk, cont), at, p) == Ways(s, at, p)
    decreases s, 0
  {
    hide Operands, U32, Size, GenClause, GenTest, GenStep, ClauseSize, TestSize, StepSize, FillsC, FillsT, FillsO, Listed, Sites;
    LoopLists(s, at, p);
    var top := b + ClauseSize(s.init);
    var body := top + TestSize(s.test);
    var next := body + StmtSize(s.loopBody);
    var end := next + StepSize(s.step) + 5;
    var a, t := GenClause(s.init, b), GenTest(s.test, top, end);
    var l, step, i := GenStmt(s.loopBody, body, U32(end), U32(next)), GenStep(s.step), Jmp(U32(top));
    var o1 := at + ClauseSize(s.init);
    var o2 := o1 + TestSize(s.test);
    var o3 := o2 + StmtSize(s.loopBody);
    GenClauseSize(s.init, b);
    GenTestSize(s.test, top, end);
    GenStmtSize(s.loopBody, body, U32(end), U32(next));
    GenStepSize(s.step);
    OperandsJoin(a, t + (l + (step + [i])), at, p);
    OperandsJoin(t, l + (step + [i]), o1, p);
    OperandsJoin(l, step + [i], o2, p);
    OperandsJoin(step, [i], o3, p);
    OneOperand(i, o3 + StepSize(s.step), p);
    ClauseOperands(s.init, b, at, p);
    OptOperands(s.test, s.step, top, end, o1, o3, p);
    StmtOperands(s.loopBody, body, U32(end), U32(next), o2, p);
  }

  lemma {:induction false} StmtsOperands(ss: Stmts, b: int, brk: u32, cont: u32, at: nat, p: int)
    ensures Operands(GenStmts(ss, b, brk, cont), at, p) == ListWays(ss, at, p)
    decreases ss, 1
  {
    hide Operands, GenStmt, Fills, Sites, Backs, StmtSize, Size, Listed;
    match ss
    case Nil =>
      NoOperands([], at, p);
      assert Listed([], p) == 0 by { NotListed(p); }
    case Cons(s, rest) =>
      var next := at + StmtSize(s);
      GenStmtSize(s, b, brk, cont);
      OperandsJoin(GenStmt(s, b, brk, cont), GenStmts(rest, b + StmtSize(s), brk, cont), at, p);
      StmtOperands(s, b, brk, cont, at, p);
      StmtsOperands(rest, b + StmtSize(s), brk, cont, next, p);
      ListedJoin(Sites(s, at, true), ListSites(rest, next, true), p);
      ListedJoin(Sites(s, at, false), ListSites(rest, next, false), p);
  }

  lemma NotListed(p: int)
    ensures Listed([], p) == 0
  {
  }

  /** A position is the operand of a jump of the emitted code if and only if it is
      reached, and then in one way only: filled once by the statement it belongs
      to or by the loop it leaves, or once on the break or the continue list left
      to the loop around, or known from the start. */
  lemma {:induction false} FilledOnce(ss: Stmts, b: int, brk: u32, cont: u32, at: nat, p: int)
    ensures ListWays(ss, at, p) <= 1
    ensures var ins := GenStmts(ss, b, brk, cont);
      ListWays(ss, at, p) == 1 <==>
        exists k: nat :: k < |ins| && (ins[k].Jmp? || ins[k].Jz?) && p == at + Size(ins[..k]) + 1
  {
    hide Operands, GenStmts, ListWays, Size;
    StmtsOperands(ss, b, brk, cont, at, p);
    OperandsAre(GenStmts(ss, b, brk, cont), at, p);
  }
}
