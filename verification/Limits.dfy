/** Where compiled code does not mean what the source means, and exactly which
    programs avoid it: jumps to the end of the code, and short-circuit
    operators in the step of a `for`. */
module Limits {
  import opened Basics
  import opened Bytecode
  import opened Vm
  import opened Source
  import opened CodeGen
  import opened SimulateExpr
  import opened SimulateStmt
  import opened Toycc

  // ----- jumps to the end of the code -----

  /** No jump of `ins` leads to `t`; without `plain`, no conditional jump. */
  ghost predicate NoJumpTo(ins: seq<Instr>, t: int, plain: bool) {
    forall k :: 0 <= k < |ins| && Jumps(ins[k], plain) ==> ins[k].target != t
  }

  predicate Jumps(i: Instr, plain: bool) {
    i.Jz? || (plain && i.Jmp?)
  }

  lemma {:induction false} ExprTargets(e: Expr, base: nat, t: nat, plain: bool)
    requires base + ExprSize(e) < 0x1_0000_0000
    requires t <= base || t > base + ExprSize(e)
    ensures NoJumpTo(GenExpr(e, base), t, plain)
    decreases e, 1
  {
    hide GenExpr, ExprSize;
    if Leaf(e) {
      LeafTargets(e, base, t, plain);
    } else if e.AndAlso? || e.OrElse? {
      LogicTargets(e, base, t, plain);
    } else if e.Bin? {
      UnfoldBin(e, base);
      BinExprSize(e);
      ExprTargets(e.l, base, t, plain);
      ExprTargets(e.r, base + ExprSize(e.l), t, plain);
    } else if e.Update? {
      UnfoldUpdate(e, base);
      UnaryExprSize(e);
      ExprTargets(e.e, base + 2, t, plain);
    } else {
      UnfoldUnary(e, base);
      UnaryExprSize(e);
      ExprTargets(e.e, base, t, plain);
    }
  }

  lemma {:induction false} LogicTargets(e: Expr, base: nat, t: nat, plain: bool)
    requires e.AndAlso? || e.OrElse?
    requires base + ExprSize(e) < 0x1_0000_0000
    requires t <= base || t > base + ExprSize(e)
    ensures NoJumpTo(GenExpr(e, base), t, plain)
    decreases e, 0
  {
    hide GenExpr, ExprSize;
    UnfoldLogic(e, base);
    LogicSize(e, base);
    ExprTargets(e.l, base, t, plain);
    ExprTargets(e.r, RightBase(e, base), t, plain);
    var r, tail := GenExpr(e.r, RightBase(e, base)), LogicTail(e, base);
    assert NoJumpTo(LogicMid(e, base), t, plain) && NoJumpTo(tail, t, plain);
    hide NoJumpTo, LogicMid, LogicTail;
    Joined2(r, tail, t, plain);
    Joined2(LogicMid(e, base), r + tail, t, plain);
    Joined2(GenExpr(e.l, base), LogicMid(e, base) + (r + tail), t, plain);
  }

  lemma LeafTargets(e: Expr, base: nat, t: nat, plain: bool)
    requires Leaf(e)
    ensures NoJumpTo(GenExpr(e, base), t, plain)
  {
  }

  lemma LogicSize(e: Expr, base: nat)
    requires e.AndAlso? || e.OrElse?
    ensures base + ExprSize(e) == RightBase(e, base) + ExprSize(e.r) + 20
    ensures ExprSize(e.l) > 0 && ExprSize(e.r) > 0
  {
  }

  lemma BinExprSize(e: Expr)
    requires e.Bin?
    ensures ExprSize(e) == ExprSize(e.l) + ExprSize(e.r) + 1
  {
  }

  lemma UnaryExprSize(e: Expr)
    requires e.Update? || e.LogNot? || e.Minus? || e.Assign?
    ensures ExprSize(e) >= ExprSize(e.e) + 1
    ensures e.Update? ==> ExprSize(e) >= ExprSize(e.e) + 3
  {
  }

  lemma {:induction false} DeclsTargets(ds: Decls, base: nat, t: nat, plain: bool)
    requires base + DeclsSize(ds) < 0x1_0000_0000
    requires t <= base || t >= base + DeclsSize(ds)
    ensures NoJumpTo(GenDecls(ds, base), t, plain)
    decreases ds
  {
    hide GenExpr, ExprSize;
    match ds
    case NoDecls =>
    case Declare(_, None, rest) => DeclsTargets(rest, base, t, plain);
    case Declare(_, Some(e), rest) =>
      ExprTargets(e, base, t, plain);
      DeclsTargets(rest, base + ExprSize(e) + 2, t, plain);
  }

  lemma Joined3(a: seq<Instr>, j: Instr, b: seq<Instr>, t: nat, plain: bool)
    requires NoJumpTo(a, t, plain) && NoJumpTo(b, t, plain)
    requires Jumps(j, plain) ==> j.target != t
    ensures NoJumpTo(a + ([j] + b), t, plain)
  {
  }

  lemma Joined2(a: seq<Instr>, b: seq<Instr>, t: nat, plain: bool)
    requires NoJumpTo(a, t, plain) && NoJumpTo(b, t, plain)
    ensures NoJumpTo(a + b, t, plain)
  {
  }

  lemma Single(j: Instr, t: nat, plain: bool)
    requires Jumps(j, plain) ==> j.target != t
    ensures NoJumpTo([j], t, plain) && NoJumpTo([], t, plain)
  {
  }

  /** The offset after `s` is a jump target in its code only when
      `JumpsToEnd` says so. */
  lemma {:induction false} StmtTargets(s: Stmt, base: nat, brk: u32, cont: u32, t: nat, plain: bool)
    requires base + StmtSize(s) < 0x1_0000_0000 && PlainSteps(s)
    requires t > base + StmtSize(s) || (t == base + StmtSize(s) && !JumpsToEnd(s, plain))
    requires plain && HasBreak(s) ==> brk != t
    requires plain && HasContinue(s) ==> cont != t
    ensures NoJumpTo(GenStmt(s, base, brk, cont), t, plain)
    decreases s, 1
  {
    hide GenExpr, ExprSize, NoJumpTo;
    if s.Block? {
      ListTargets(s.body, base, brk, cont, t, plain);
    } else if s.DeclStmt? {
      DeclsTargets(s.ds, base, t, plain);
    } else if s.PutcStmt? || s.SleepStmt? || s.Return? || s.ExprStmt? {
      var i := if s.PutcStmt? then Putc else if s.SleepStmt? then Sleep else if s.Return? then Ret else Pop;
      ExprTargets(s.e, base, t, plain);
      Single(i, t, plain);
      Joined2(GenExpr(s.e, base), [i], t, plain);
    } else if s.If? || s.IfElse? {
      BranchTargets(s, base, brk, cont, t, plain);
    } else if s.While? || s.DoWhile? || s.For? {
      LoopTargets(s, base, brk, cont, t, plain);
    } else if s.PutsStmt? {
      Single(Puts(s.text + [0]), t, plain);
    } else {
      Single(if s.Break? then Jmp(brk) else if s.Continue? then Jmp(cont) else Pop, t, plain);
    }
  }

  lemma BranchEnd(s: Stmt, plain: bool)
    requires s.If? || s.IfElse?
    ensures s.If? ==> JumpsToEnd(s, plain)
    ensures s.IfElse? && !JumpsToEnd(s, plain) ==> !plain && StmtSize(s.els) > 0 && !JumpsToEnd(s.els, plain)
  {
  }

  /** Sizes and exits of the parts of a conditional. */
  lemma BranchExits(s: Stmt)
    requires s.If? || s.IfElse?
    ensures StmtSize(s) == ExprSize(s.cond) + 5 + StmtSize(s.thn) + if s.If? then 0 else 5 + StmtSize(s.els)
    ensures HasBreak(s) <==> HasBreak(s.thn) || (s.IfElse? && HasBreak(s.els))
    ensures HasContinue(s) <==> HasContinue(s.thn) || (s.IfElse? && HasContinue(s.els))
  {
    hide ExprSize;
  }

  lemma {:induction false} BranchTargets(s: Stmt, base: nat, brk: u32, cont: u32, t: nat, plain: bool)
    requires s.If? || s.IfElse?
    requires base + StmtSize(s) < 0x1_0000_0000 && PlainSteps(s)
    requires t > base + StmtSize(s) || (t == base + StmtSize(s) && !JumpsToEnd(s, plain))
    requires plain && HasBreak(s) ==> brk != t
    requires plain && HasContinue(s) ==> cont != t
    ensures NoJumpTo(GenStmt(s, base, brk, cont), t, plain)
    decreases s, 0
  {
    hide GenExpr, ExprSize, NoJumpTo, JumpsToEnd, StmtSize, HasBreak, HasContinue;
    BranchExits(s);
    BranchEnd(s, plain);
    var body := base + ExprSize(s.cond) + 5;
    var thn := GenStmt(s.thn, body, brk, cont);
    ExprTargets(s.cond, base, t, plain);
    StmtTargets(s.thn, body, brk, cont, t, plain);
    if s.If? {
      Joined3(GenExpr(s.cond, base), Jz(U32(body + StmtSize(s.thn))), thn, t, plain);
    } else {
      var other := body + StmtSize(s.thn) + 5;
      var jmp := Jmp(U32(other + StmtSize(s.els)));
      StmtTargets(s.els, other, brk, cont, t, plain);
      Joined3(thn, jmp, GenStmt(s.els, other, brk, cont), t, plain);
      Joined3(GenExpr(s.cond, base), Jz(U32(other)), thn + ([jmp] + GenStmt(s.els, other, brk, cont)), t, plain);
    }
  }

  lemma {:induction false} LoopTargets(s: Stmt, base: nat, brk: u32, cont: u32, t: nat, plain: bool)
    requires s.While? || s.DoWhile? || s.For?
    requires base + StmtSize(s) < 0x1_0000_0000 && PlainSteps(s)
    requires t > base + StmtSize(s) || (t == base + StmtSize(s) && !JumpsToEnd(s, plain))
    ensures NoJumpTo(GenStmt(s, base, brk, cont), t, plain)
    decreases s, 0
  {
    hide GenExpr, ExprSize, NoJumpTo;
    if s.While? {
      var body := base + ExprSize(s.cond) + 5;
      var end := body + StmtSize(s.loopBody) + 5;
      ExprTargets(s.cond, base, t, plain);
      StmtTargets(s.loopBody, body, U32(end), U32(base), t, plain);
      Single(Jmp(U32(base)), t, plain);
      Joined2(GenStmt(s.loopBody, body, U32(end), U32(base)), [Jmp(U32(base))], t, plain);
      Joined3(GenExpr(s.cond, base), Jz(U32(end)),
        GenStmt(s.loopBody, body, U32(end), U32(base)) + [Jmp(U32(base))], t, plain);
    } else if s.DoWhile? {
      var test := base + StmtSize(s.loopBody);
      var end := test + ExprSize(s.cond) + 10;
      ExprTargets(s.cond, test, t, plain);
      StmtTargets(s.loopBody, base, U32(end), U32(test), t, plain);
      Single(Jmp(U32(base)), t, plain);
      Joined3(GenExpr(s.cond, test), Jz(U32(end)), [Jmp(U32(base))], t, plain);
      assert [Jz(U32(end))] + [Jmp(U32(base))] == [Jz(U32(end)), Jmp(U32(base))];
      Joined2(GenStmt(s.loopBody, base, U32(end), U32(test)),
        GenExpr(s.cond, test) + [Jz(U32(end)), Jmp(U32(base))], t, plain);
    } else {
      ForTargets(s, base, brk, cont, t, plain);
    }
  }

  lemma {:induction false} ForTargets(s: Stmt, base: nat, brk: u32, cont: u32, t: nat, plain: bool)
    requires s.For?
    requires base + StmtSize(s) < 0x1_0000_0000 && PlainSteps(s)
    requires t > base + StmtSize(s) || (t == base + StmtSize(s) && !JumpsToEnd(s, plain))
    ensures NoJumpTo(GenStmt(s, base, brk, cont), t, plain)
    decreases s, 0, 0
  {
    hide GenExpr, ExprSize, ClauseSize, GenClause, NoJumpTo;
    var top := base + ClauseSize(s.init);
    var body := top + TestSize(s.test);
    var next := body + StmtSize(s.loopBody);
    var end := next + StepSize(s.step) + 5;
    var b := GenStmt(s.loopBody, body, U32(end), U32(next));
    ClauseTargets(s.init, base, t, plain);
    Single(Pop, t, plain);
    if s.test.Some? {
      ExprTargets(s.test.value, top, t, plain);
      Joined3(GenExpr(s.test.value, top), Jz(U32(end)), [], t, plain);
      assert [Jz(U32(end))] + [] == [Jz(U32(end))];
    }
    if s.step.Some? {
      Relocated(s.step.value, next);
      ExprTargets(s.step.value, next, t, plain);
      Joined2(GenExpr(s.step.value, next), [Pop], t, plain);
    }
    StmtTargets(s.loopBody, body, U32(end), U32(next), t, plain);
    Single(Jmp(U32(top)), t, plain);
    Joined2(GenStep(s.step), [Jmp(U32(top))], t, plain);
    Joined2(b, GenStep(s.step) + [Jmp(U32(top))], t, plain);
    Joined2(GenTest(s.test, top, end), b + (GenStep(s.step) + [Jmp(U32(top))]), t, plain);
    Joined2(GenClause(s.init, base), GenTest(s.test, top, end) + (b + (GenStep(s.step) + [Jmp(U32(top))])), t, plain);
  }

  lemma ClauseTargets(c: Clause, base: nat, t: nat, plain: bool)
    requires base + ClauseSize(c) < 0x1_0000_0000
    requires t <= base || t >= base + ClauseSize(c)
    ensures NoJumpTo(GenClause(c, base), t, plain)
  {
    hide GenExpr, ExprSize;
    match c
    case NoClause =>
    case DeclClause(ds) => DeclsTargets(ds, base, t, plain);
    case ExprClause(e) => ExprTargets(e, base, t, plain);
  }

  lemma {:induction false} ListTargets(ss: Stmts, base: nat, brk: u32, cont: u32, t: nat, plain: bool)
    requires base + StmtsSize(ss) < 0x1_0000_0000 && AllPlainSteps(ss)
    requires t > base + StmtsSize(ss) || (t == base + StmtsSize(ss) && !ListJumpsToEnd(ss, plain))
    requires plain && AnyBreak(ss) ==> brk != t
    requires plain && AnyContinue(ss) ==> cont != t
    ensures NoJumpTo(GenStmts(ss, base, brk, cont), t, plain)
    decreases ss, 0
  {
    hide GenStmt;
    if ss.Cons? {
      StmtTargets(ss.head, base, brk, cont, t, plain);
      ListTargets(ss.tail, base + StmtSize(ss.head), brk, cont, t, plain);
    }
  }

  /** Conversely, `JumpsToEnd` always finds such a jump. */
  lemma {:induction false} EndJump(s: Stmt, base: nat, brk: u32, cont: u32, plain: bool)
    requires base + StmtSize(s) < 0x1_0000_0000 && JumpsToEnd(s, plain)
    ensures !NoJumpTo(GenStmt(s, base, brk, cont), base + StmtSize(s), plain)
    decreases s, 1
  {
    hide GenExpr, ExprSize, NoJumpTo;
    var end := base + StmtSize(s);
    match s
    case Block(ss) => ListEndJump(ss, base, brk, cont, plain);
    case If(c, t) => Witness(GenExpr(c, base), Jz(U32(end)), GenStmt(t, base + ExprSize(c) + 5, brk, cont), end, plain);
    case IfElse(c, t, e) =>
      var body := base + ExprSize(c) + 5;
      var other := body + StmtSize(t) + 5;
      var thn, els := GenStmt(t, body, brk, cont), GenStmt(e, other, brk, cont);
      var rest := thn + ([Jmp(U32(end))] + els);
      if plain {
        Witness(thn, Jmp(U32(end)), els, end, plain);
        Suffix([Jz(U32(other))], rest, end, plain);
        Suffix(GenExpr(c, base), [Jz(U32(other))] + rest, end, plain);
      } else if StmtSize(e) == 0 {
        Witness(GenExpr(c, base), Jz(U32(other)), rest, end, plain);
      } else {
        EndJump(e, other, brk, cont, plain);
        Suffix([Jmp(U32(end))], els, end, plain);
        Suffix(thn, [Jmp(U32(end))] + els, end, plain);
        Suffix([Jz(U32(other))], rest, end, plain);
        Suffix(GenExpr(c, base), [Jz(U32(other))] + rest, end, plain);
      }
    case While(c, b) =>
      Witness(GenExpr(c, base), Jz(U32(end)),
        GenStmt(b, base + ExprSize(c) + 5, U32(end), U32(base)) + [Jmp(U32(base))], end, plain);
    case DoWhile(b, c) =>
      var test := base + StmtSize(b);
      Witness(GenExpr(c, test), Jz(U32(end)), [Jmp(U32(base))], end, plain);
      assert [Jz(U32(end))] + [Jmp(U32(base))] == [Jz(U32(end)), Jmp(U32(base))];
      Suffix(GenStmt(b, base, U32(end), U32(test)), GenExpr(c, test) + [Jz(U32(end)), Jmp(U32(base))], end, plain);
    case For(_, _, _, _) => ForEndJump(s, base, brk, cont, plain);
  }

  lemma Witness(a: seq<Instr>, j: Instr, b: seq<Instr>, t: nat, plain: bool)
    requires Jumps(j, plain) && j.target == t
    ensures !NoJumpTo(a + ([j] + b), t, plain)
  {
    assert (a + ([j] + b))[|a|] == j;
  }

  lemma Suffix(a: seq<Instr>, b: seq<Instr>, t: nat, plain: bool)
    requires !NoJumpTo(b, t, plain)
    ensures !NoJumpTo(a + b, t, plain)
  {
    var k :| 0 <= k < |b| && Jumps(b[k], plain) && b[k].target == t;
    assert (a + b)[|a| + k] == b[k];
  }

  lemma Prefix(a: seq<Instr>, b: seq<Instr>, t: nat, plain: bool)
    requires !NoJumpTo(a, t, plain)
    ensures !NoJumpTo(a + b, t, plain)
  {
    var k :| 0 <= k < |a| && Jumps(a[k], plain) && a[k].target == t;
    assert (a + b)[k] == a[k];
  }

  lemma {:induction false} BreakJump(s: Stmt, base: nat, brk: u32, cont: u32)
    requires HasBreak(s)
    ensures !NoJumpTo(GenStmt(s, base, brk, cont), brk, true)
    decreases s, 1
  {
    hide GenExpr, ExprSize, U32, NoJumpTo;
    match s
    case Break => Witness([], Jmp(brk), [], brk, true); assert [] + ([Jmp(brk)] + []) == [Jmp(brk)];
    case Block(ss) => ListBreakJump(ss, base, brk, cont);
    case If(c, t) =>
      var body := base + ExprSize(c) + 5;
      BreakJump(t, body, brk, cont);
      Suffix([Jz(U32(body + StmtSize(t)))], GenStmt(t, body, brk, cont), brk, true);
      Suffix(GenExpr(c, base), [Jz(U32(body + StmtSize(t)))] + GenStmt(t, body, brk, cont), brk, true);
    case IfElse(c, t, e) =>
      var body := base + ExprSize(c) + 5;
      var other := body + StmtSize(t) + 5;
      var jmp := [Jmp(U32(other + StmtSize(e)))];
      if HasBreak(t) {
        BreakJump(t, body, brk, cont);
        Prefix(GenStmt(t, body, brk, cont), jmp + GenStmt(e, other, brk, cont), brk, true);
      } else {
        BreakJump(e, other, brk, cont);
        Suffix(jmp, GenStmt(e, other, brk, cont), brk, true);
        Suffix(GenStmt(t, body, brk, cont), jmp + GenStmt(e, other, brk, cont), brk, true);
      }
      var rest := GenStmt(t, body, brk, cont) + (jmp + GenStmt(e, other, brk, cont));
      Suffix([Jz(U32(other))], rest, brk, true);
      Suffix(GenExpr(c, base), [Jz(U32(other))] + rest, brk, true);
  }

  lemma {:induction false} ListBreakJump(ss: Stmts, base: nat, brk: u32, cont: u32)
    requires AnyBreak(ss)
    ensures !NoJumpTo(GenStmts(ss, base, brk, cont), brk, true)
    decreases ss, 0
  {
    hide GenStmt, HasBreak;
    var h, t := GenStmt(ss.head, base, brk, cont), GenStmts(ss.tail, base + StmtSize(ss.head), brk, cont);
    if HasBreak(ss.head) {
      BreakJump(ss.head, base, brk, cont);
      Prefix(h, t, brk, true);
    } else {
      ListBreakJump(ss.tail, base + StmtSize(ss.head), brk, cont);
      Suffix(h, t, brk, true);
    }
  }

  lemma {:induction false} ForEndJump(s: Stmt, base: nat, brk: u32, cont: u32, plain: bool)
    requires s.For? && base + StmtSize(s) < 0x1_0000_0000 && JumpsToEnd(s, plain)
    ensures !NoJumpTo(GenStmt(s, base, brk, cont), base + StmtSize(s), plain)
    decreases s, 0
  {
    hide GenExpr, ExprSize, GenClause, GenStep, ClauseSize, StepSize, NoJumpTo;
    var top := base + ClauseSize(s.init);
    var body := top + TestSize(s.test);
    var next := body + StmtSize(s.loopBody);
    var end := next + StepSize(s.step) + 5;
    var b := GenStmt(s.loopBody, body, U32(end), U32(next));
    var back := GenStep(s.step) + [Jmp(U32(top))];
    if s.test.Some? {
      Witness(GenExpr(s.test.value, top), Jz(U32(end)), [], end, plain);
      assert [Jz(U32(end))] + [] == [Jz(U32(end))];
      Prefix(GenTest(s.test, top, end), b + back, end, plain);
    } else {
      BreakJump(s.loopBody, body, U32(end), U32(next));
      Prefix(b, back, end, plain);
      Suffix(GenTest(s.test, top, end), b + back, end, plain);
    }
    Suffix(GenClause(s.init, base), GenTest(s.test, top, end) + (b + back), end, plain);
  }

  lemma {:induction false} ListEndJump(ss: Stmts, base: nat, brk: u32, cont: u32, plain: bool)
    requires base + StmtsSize(ss) < 0x1_0000_0000 && ListJumpsToEnd(ss, plain)
    ensures !NoJumpTo(GenStmts(ss, base, brk, cont), base + StmtsSize(ss), plain)
    decreases ss, 0
  {
    hide GenStmt, JumpsToEnd, NoJumpTo;
    var h, t := GenStmt(ss.head, base, brk, cont), GenStmts(ss.tail, base + StmtSize(ss.head), brk, cont);
    if ListJumpsToEnd(ss.tail, plain) {
      ListEndJump(ss.tail, base + StmtSize(ss.head), brk, cont, plain);
      Suffix(h, t, base + StmtsSize(ss), plain);
    } else {
      EndJump(ss.head, base, brk, cont, plain);
      Prefix(h, t, base + StmtsSize(ss), plain);
    }
  }

  /** Exactly the programs that contain a return and end in a construct with
      an open exit have a jump to the offset past their last instruction, and
      likewise for conditional jumps alone. */
  lemma {:induction false} JumpsPastCode(ss: Stmts, plain: bool)
    requires ProgramSize(ss) < 0x1_0000_0000 && AllPlainSteps(ss)
    requires !AnyBreak(ss) && !AnyContinue(ss)
    ensures NoJumpTo(GenProgram(ss), ProgramSize(ss), plain) <==> !(AnyReturn(ss) && ListJumpsToEnd(ss, plain))
  {
    hide GenStmts, StmtsSize, ListJumpsToEnd, AnyReturn, AllPlainSteps;
    var body := GenStmts(ss, 0, 0, 0);
    if AnyReturn(ss) && ListJumpsToEnd(ss, plain) {
      ListEndJump(ss, 0, 0, 0, plain);
      Prefix(body, [], ProgramSize(ss), plain);
    } else {
      ListTargets(ss, 0, 0, 0, ProgramSize(ss), plain);
    }
  }

  /** Such a conditional jump ends every run that reaches it, whatever is on
      the stack: it is neither taken nor passed, and nothing more is stored or
      called. */
  lemma JzToEndStops(code: seq<byte>, st: State, k: nat, m: nat)
    requires |st.vars| == MAX_VARS
    requires var t := Run(code, st, k);
      t.status == Running && CodeAt(code, t.pc, [Jz(U32(|code|))]) && |code| < 0x1_0000_0000
    requires m > k
    ensures var t := Run(code, st, k);
      var u := Run(code, st, m);
      u.status == Halted && u.vars == t.vars && u.trace == t.trace && u.stack == t.stack
  {
    hide CodeAt, Run;
    Then(code, st, k, Run(code, st, k), Jz(U32(|code|)));
    RunAdd(code, st, k + 1, m - (k + 1));
    StoppedStays(code, Run(code, st, k + 1), m - (k + 1));
  }

  /** A program that is one `if` with a return inside never gets past its
      condition, whatever the condition and the guarded statement are. */
  lemma LoneIfStops(c: Expr, t: Stmt) returns (k: nat)
    requires ExprOk(c) && StmtOk(t) && HasReturn(t) && Depth(c) <= STACK_MAX
    requires ProgramSize(Cons(If(c, t), Nil)) < 0x1_0000_0000
    ensures AllEncodable(GenProgram(Cons(If(c, t), Nil)))
    ensures var end := Run(Encode(GenProgram(Cons(If(c, t), Nil))), Initial(), k);
      end.status == Halted && end.trace == [] && end.vars == Eval(c, Initial().vars).1
  {
    hide CodeAt, Run, GenExpr, Eval, ExprSize, Encode, AllEncodable, GenStmt, Depth;
    var ss := Cons(If(c, t), Nil);
    GenEncodable(ss);
    var code := Encode(GenProgram(ss));
    ProgramCode(ss, code);
    var st := Initial();
    CodeAtAppend(code, 0, GenStmt(If(c, t), 0, 0, 0), []);
    assert GenStmt(If(c, t), 0, 0, 0) + [] == GenStmts(ss, 0, 0, 0) by { OneStmt(If(c, t)); }
    BranchLayout(code, If(c, t), 0, 0, 0);
    assert AnyReturn(ss) && StmtsSize(Nil) == 0;
    assert |code| == StmtSize(If(c, t)) == ElseAt(If(c, t), 0);
    k := SimExpr(code, c, st);
    Then(code, st, k, After(st, ExprSize(c), Eval(c, st.vars)), Jz(U32(|code|)));
    k := k + 1;
  }

  lemma OneStmt(s: Stmt)
    ensures GenStmts(Cons(s, Nil), 0, 0, 0) == GenStmt(s, 0, 0, 0) + []
  {
    hide GenStmt;
  }

  /** `if(1){ u_putc('A'); return 0; }`: the source prints A, the machine
      prints nothing. */
  lemma JumpToEndIsWrong() returns (k: nat)
    ensures var ss := Cons(If(Num(1), Block(Cons(PutcStmt(Num(65)), Cons(Return(Num(0)), Nil)))), Nil);
      AllEncodable(GenProgram(ss)) &&
      (forall fuel :: ExecAll(ss, InitialStore(), fuel).1.trace == [PutChar(65)]) &&
      Run(Encode(GenProgram(ss)), Initial(), k).status == Halted &&
      Run(Encode(GenProgram(ss)), Initial(), k).trace == []
  {
    hide GenProgram, Run, Encode, AllEncodable;
    var t := Block(Cons(PutcStmt(Num(65)), Cons(Return(Num(0)), Nil)));
    assert AnyReturn(Cons(Return(Num(0)), Nil));
    assert StmtsSize(Cons(Return(Num(0)), Nil)) == 6;
    assert StmtsSize(Cons(PutcStmt(Num(65)), Cons(Return(Num(0)), Nil))) == 12;
    assert StmtSize(t) == 12;
    assert StmtsSize(Cons(If(Num(1), t), Nil)) == 22;
    k := LoneIfStops(Num(1), t);
    var ss := Cons(If(Num(1), t), Nil);
    forall fuel: nat ensures ExecAll(ss, InitialStore(), fuel).1.trace == [PutChar(65)] {
      var last := Cons(Return(Num(0)), Nil);
      var s1 := InitialStore().(trace := [PutChar(65)]);
      assert InitialStore().trace + [PutChar(CharArg(65))] == s1.trace;
      assert Exec(PutcStmt(Num(65)), InitialStore(), fuel) == (Normal, s1);
      assert ExecAll(last, s1, fuel) == (Returned, s1);
      assert ExecAll(t.body, InitialStore(), fuel) == (Returned, s1);
      assert Exec(t, InitialStore(), fuel) == (Returned, s1);
      assert Exec(If(Num(1), t), InitialStore(), fuel) == (Returned, s1);
    }
  }

  // ----- the step clause of a for -----

  /** The step code compiled into the side buffer is the code that belongs at
      its final place exactly when the clause has no short-circuit operator. */
  lemma {:induction false} StepPlacement(e: Expr, next: nat)
    requires next < 0xFFFF_FFF8
    ensures GenStep(Some(e)) == GenExpr(e, next) + [Pop] <==> !HasLogic(e)
  {
    hide GenExpr;
    Relocatable(e, STEP_BASE, next);
    GenExprLength(e, STEP_BASE, next);
    AppendInjective(GenExpr(e, STEP_BASE), GenExpr(e, next), [Pop], [Pop]);
  }

  /** What has been printed stays printed. */
  lemma {:induction false} TraceGrows(code: seq<byte>, st: State, k: nat)
    requires |st.vars| == MAX_VARS
    ensures st.trace <= Run(code, st, k).trace
    decreases k
  {
    hide Fetch;
    if k > 0 {
      TraceGrows(code, Step(code, st), k - 1);
    }
  }

  /** `for(;; 1 && 1) u_putc('A');` */
  function LoopWithLogicStep(): Stmts {
    Cons(For(NoClause, None, Some(AndAlso(Num(1), Num(1))), PutcStmt(Num(65))), Nil)
  }

  function LoopCode(): seq<Instr> {
    [PushConst(65), Putc] + [PushConst(1), Jz(22), PushConst(1), Jz(22), PushConst(1), Jmp(27)] +
    [PushConst(0), Pop, Jmp(0), PushConst(0), Ret]
  }

  lemma LoopCodeIs()
    ensures GenProgram(LoopWithLogicStep()) == LoopCode()
    ensures AllEncodable(LoopCode())
  {
    hide GenExpr, GenStmt, GenStep;
    var step := AndAlso(Num(1), Num(1));
    var s := For(NoClause, None, Some(step), PutcStmt(Num(65)));
    BareFor(step, PutcStmt(Num(65)));
    BodyCodeIs();
    StepCodeIs();
    OneStmt(s);
    assert !AnyReturn(Cons(s, Nil));
  }

  lemma BodyCodeIs()
    ensures forall b: u32, c: u32 :: GenStmt(PutcStmt(Num(65)), 0, b, c) == [PushConst(65), Putc]
  {
    assert GenExpr(Num(65), 0) == [PushConst(65)];
  }

  lemma BareFor(step: Expr, b: Stmt)
    ensures exists x: u32, y: u32 ::
      GenStmt(For(NoClause, None, Some(step), b), 0, 0, 0) == GenStmt(b, 0, x, y) + (GenStep(Some(step)) + [Jmp(0)])
  {
    hide GenExpr;
    var next := StmtSize(b);
    var end := next + StepSize(Some(step)) + 5;
    var code := GenStmt(b, 0, U32(end), U32(next)) + (GenStep(Some(step)) + [Jmp(U32(0))]);
    assert [] + ([] + code) == code;
    assert U32(0) == 0;
    assert GenStmt(For(NoClause, None, Some(step), b), 0, 0, 0) == code;
  }

  lemma StepCodeIs()
    ensures GenStep(Some(AndAlso(Num(1), Num(1)))) ==
      [PushConst(1), Jz(22), PushConst(1), Jz(22), PushConst(1), Jmp(27), PushConst(0), Pop]
  {
    var step := AndAlso(Num(1), Num(1));
    assert GenExpr(Num(1), -8) == [PushConst(1)] && GenExpr(Num(1), 2) == [PushConst(1)];
    UnfoldLogic(step, -8);
    assert GenExpr(step, -8) == [PushConst(1), Jz(22), PushConst(1), Jz(22), PushConst(1), Jmp(27), PushConst(0)];
  }

  /** The first eight instructions stand at these offsets; the last of them
      jumps into the operand of the one before it, which reads as an empty
      string to print. */
  lemma LoopMiddle(code: seq<byte>)
    requires AllEncodable(LoopCode()) && code == Encode(LoopCode()) && |code| == 53
    ensures code[26..31] == EncodeInstr(PushConst(1))
  {
    hide CodeAt, Encode, EncodeInstr, Size, AllEncodable;
    var a, head := [PushConst(65), Putc], [PushConst(1), Jz(22), PushConst(1)];
    var c := [PushConst(0), Pop, Jmp(0), PushConst(0), Ret];
    var pre := a + head + [Jz(22)];
    Size2(PushConst(65), Putc);
    Size3(PushConst(1), Jz(22), PushConst(1));
    SizeAppend(a, head);
    SizeOne(Jz(22));
    SizeAppend(a + head, [Jz(22)]);
    assert LoopCode() == pre + ([PushConst(1)] + ([Jmp(27)] + c));
    MiddleBytes(code, pre, PushConst(1), [Jmp(27)] + c);
  }

  lemma LoopSize(code: seq<byte>)
    requires AllEncodable(LoopCode()) && code == Encode(LoopCode())
    ensures |code| == 53 == Size(LoopCode())
  {
    hide Encode, EncodeInstr, Size, AllEncodable;
    var a, head, last := [PushConst(65), Putc], [PushConst(1), Jz(22), PushConst(1)], [Jz(22), PushConst(1), Jmp(27)];
    var c := [PushConst(0), Pop, Jmp(0), PushConst(0), Ret];
    assert LoopCode() == a + (head + (last + c));
    Size2(PushConst(65), Putc);
    Size3(PushConst(1), Jz(22), PushConst(1));
    Size3(Jz(22), PushConst(1), Jmp(27));
    Size5(PushConst(0), Pop, Jmp(0), PushConst(0), Ret);
    SizeAppend(last, c);
    SizeAppend(head, last + c);
    SizeAppend(a, head + (last + c));
    EncodeSize(LoopCode());
  }

  lemma LoopLayout(code: seq<byte>)
    requires AllEncodable(LoopCode()) && code == Encode(LoopCode())
    ensures |code| == 53
    ensures CodeAt(code, 0, [PushConst(65)]) && CodeAt(code, 5, [Putc])
    ensures CodeAt(code, 6, [PushConst(1)]) && CodeAt(code, 11, [Jz(22)]) && CodeAt(code, 16, [PushConst(1)])
    ensures CodeAt(code, 21, [Jz(22)]) && CodeAt(code, 26, [PushConst(1)]) && CodeAt(code, 31, [Jmp(27)])
    ensures code[26..31] == EncodeInstr(PushConst(1))
  {
    hide CodeAt, Encode, EncodeInstr, Size, AllEncodable;
    LoopSize(code);
    var a, head, last := [PushConst(65), Putc], [PushConst(1), Jz(22), PushConst(1)], [Jz(22), PushConst(1), Jmp(27)];
    var c := [PushConst(0), Pop, Jmp(0), PushConst(0), Ret];
    assert LoopCode() == a + (head + (last + c));
    Size2(PushConst(65), Putc);
    Size3(PushConst(1), Jz(22), PushConst(1));
    Size3(Jz(22), PushConst(1), Jmp(27));
    EncodedCodeAt(code, 0, LoopCode());
    CodeAtAppend(code, 0, a, head + (last + c));
    CodeAtAppend(code, 6, head, last + c);
    CodeAtAppend(code, 21, last, c);
    LoopPieces(code);
    LoopMiddle(code);
  }

  lemma LoopPieces(code: seq<byte>)
    requires CodeAt(code, 0, [PushConst(65), Putc])
    requires CodeAt(code, 6, [PushConst(1), Jz(22), PushConst(1)])
    requires CodeAt(code, 21, [Jz(22), PushConst(1), Jmp(27)])
    ensures CodeAt(code, 0, [PushConst(65)]) && CodeAt(code, 5, [Putc])
    ensures CodeAt(code, 6, [PushConst(1)]) && CodeAt(code, 11, [Jz(22)]) && CodeAt(code, 16, [PushConst(1)])
    ensures CodeAt(code, 21, [Jz(22)]) && CodeAt(code, 26, [PushConst(1)]) && CodeAt(code, 31, [Jmp(27)])
  {
    hide CodeAt;
    At2(code, 0, PushConst(65), Putc);
    At3(code, 6, PushConst(1), Jz(22), PushConst(1));
    At3(code, 21, Jz(22), PushConst(1), Jmp(27));
  }

  /** The bytes of one instruction in the middle of a program. */
  lemma MiddleBytes(code: seq<byte>, pre: seq<Instr>, i: Instr, post: seq<Instr>)
    requires AllEncodable(pre + ([i] + post)) && code == Encode(pre + ([i] + post))
    ensures Encodable(i) && Size(pre) + InstrSize(i) <= |code|
    ensures code[Size(pre)..Size(pre) + InstrSize(i)] == EncodeInstr(i)
  {
    hide Encode, EncodeInstr;
    var all := pre + ([i] + post);
    assert all[|pre|] == i;
    assert forall k :: 0 <= k < |pre| ==> pre[k] == all[k];
    assert forall k :: 0 <= k < |post| ==> post[k] == all[|pre| + 1 + k];
    EncodeAppend(pre, [i] + post);
    EncodeAppend([i], post);
    EncodeSize(pre);
    EncodeInstrSize(i);
    assert Encode([i]) == EncodeInstr(i) by { EncodeSingle(i); }
  }

  lemma EncodeSingle(i: Instr)
    requires Encodable(i)
    ensures Encode([i]) == EncodeInstr(i)
  {
    hide EncodeInstr;
    assert [i][1..] == [];
    assert Encode([]) == [];
  }

  lemma OverlappedPuts(code: seq<byte>)
    requires |code| == 53 && code[26..31] == EncodeInstr(PushConst(1))
    ensures CodeAt(code, 27, [Puts([0])])
  {
    var b := code[26..31];
    assert b == [5, 1, 0, 0, 0];
    assert code[27] == b[1] && code[28] == b[2] && code[29] == b[3] && code[30] == b[4];
    assert code[30..31] == [0];
  }

  /** `for(;; 1 && 1) u_putc('A');` prints A for ever.  The machine prints A
      once; then the misplaced jump of the step makes it print an empty
      string. */
  lemma StepWithLogicIsWrong() returns (k: nat)
    ensures AllEncodable(GenProgram(LoopWithLogicStep()))
    ensures forall fuel: nat, i: nat ::
      var t := ExecAll(LoopWithLogicStep(), InitialStore(), fuel).1.trace;
      i < |t| ==> t[i] == PutChar(65)
    ensures forall m: nat :: k <= m ==>
      [PutChar(65), PutString([])] <= Run(Encode(GenProgram(LoopWithLogicStep())), Initial(), m).trace
  {
    hide CodeAt, Run, Encode, LoopCode, GenProgram, Perform;
    LoopCodeIs();
    var code := Encode(LoopCode());
    LoopLayout(code);
    OverlappedPuts(code);
    var st := Initial();
    var a := st.(trace := [PutChar(65)]);
    RunZero(code, st);
    ThenPush(code, st, 0, st, PushConst(65), 65);
    ThenCall(code, st, 1, st.(pc := 5, stack := [65]), [], 65, Putc);
    assert st.trace + [PutChar(CharArg(65))] == a.trace;
    ThenPush(code, st, 2, a.(pc := 6), PushConst(1), 1);
    ThenJz(code, st, 3, a.(pc := 11, stack := [1]), [], 1, 22);
    ThenPush(code, st, 4, a.(pc := 16), PushConst(1), 1);
    ThenJz(code, st, 5, a.(pc := 21, stack := [1]), [], 1, 22);
    ThenPush(code, st, 6, a.(pc := 26), PushConst(1), 1);
    ThenJmp(code, st, 7, a.(pc := 31, stack := [1]), 27);
    ThenEmptyPuts(code, st, 8, a.(pc := 27, stack := [1]));
    k := 9;
    forall m: nat | k <= m ensures [PutChar(65), PutString([])] <= Run(code, st, m).trace {
      RunAdd(code, st, k, m - k);
      TraceGrows(code, Run(code, st, k), m - k);
    }
    forall fuel: nat, i: nat
      ensures var t := ExecAll(LoopWithLogicStep(), InitialStore(), fuel).1.trace;
        i < |t| ==> t[i] == PutChar(65)
    {
      OnlyA(InitialStore(), fuel);
      var s := LoopWithLogicStep().head;
      assert Exec(s, InitialStore(), fuel) ==
        ExecLoop(None, Some(AndAlso(Num(1), Num(1))), PutcStmt(Num(65)), InitialStore(), fuel);
    }
  }

  lemma ThenEmptyPuts(code: seq<byte>, st: State, n: nat, mid: State)
    requires |st.vars| == MAX_VARS && Run(code, st, n) == mid && mid.status == Running
    requires CodeAt(code, mid.pc, [Puts([0])])
    ensures Run(code, st, n + 1).trace == mid.trace + [PutString([])]
  {
    hide CodeAt, Run;
    Then(code, st, n, mid, Puts([0]));
    assert [0][0] == 0;
  }

  lemma {:induction false} OnlyA(st: Store, fuel: nat)
    requires forall i :: 0 <= i < |st.trace| ==> st.trace[i] == PutChar(65)
    ensures var r := ExecLoop(None, Some(AndAlso(Num(1), Num(1))), PutcStmt(Num(65)), st, fuel);
      r.0 == OutOfFuel && forall i :: 0 <= i < |r.1.trace| ==> r.1.trace[i] == PutChar(65)
    decreases fuel
  {
    if fuel > 0 {
      var st1 := st.(trace := st.trace + [PutChar(65)]);
      assert Exec(PutcStmt(Num(65)), st, fuel) == (Normal, st1);
      assert Eval(Num(1), st1.vars) == (1, st1.vars);
      assert ExecStep(Some(AndAlso(Num(1), Num(1))), st1.vars) == st1.vars;
      OnlyA(st1, fuel - 1);
    }
  }
}
