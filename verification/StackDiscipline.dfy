/** Stack discipline of compiled code: the height of the operand stack is a
    function of the code offset alone, every reachable offset is the start of
    an instruction, and no run ever meets one of the interpreter's guards. */
module StackDiscipline {
  import opened Basics
  import opened Bytecode
  import opened Vm
  import opened Source
  import opened CodeGen
  import opened SimulateExpr
  import opened SimulateStmt
  import opened Toycc

  // ----- the height function -----

  /** Stack height before the instruction of `e` that starts at `pc`, when the
      code of `e` stands at `base` and is entered with height `h`; `None` when
      no instruction of `e` starts there. */
  function HeightE(e: Expr, base: int, h: nat, pc: int): Option<nat>
  {
    match e
    case Num(_) => if pc == base then Some(h) else None
    case Var(_) => if pc == base then Some(h) else None
    case PostInc(_) | PostDec(_) => PostHeight(pc - base, h)
    case PreInc(_) | PreDec(_) => PreHeight(pc - base, h)
    case LogNot(a) =>
      if pc < base + ExprSize(a) then HeightE(a, base, h, pc)
      else if pc == base + ExprSize(a) then Some(h + 1) else None
    case Minus(a) =>
      if pc < base + ExprSize(a) then HeightE(a, base, h, pc)
      else if pc == base + ExprSize(a) then Some(h + 1) else None
    case Bin(_, l, r) =>
      var right := base + ExprSize(l);
      if pc < right then HeightE(l, base, h, pc)
      else if pc < right + ExprSize(r) then HeightE(r, right, h + 1, pc)
      else if pc == right + ExprSize(r) then Some(h + 2) else None
    case AndAlso(l, r) =>
      var jz := base + ExprSize(l);
      if pc < jz then HeightE(l, base, h, pc)
      else if pc == jz then Some(h + 1)
      else if pc < jz + 5 + ExprSize(r) then HeightE(r, jz + 5, h, pc)
      else TruthHeight(pc - (jz + 5 + ExprSize(r)), h)
    case OrElse(l, r) =>
      var jz := base + ExprSize(l);
      if pc < jz then HeightE(l, base, h, pc)
      else if pc < jz + 15 then TruthHeight(pc - jz, h)
      else if pc < jz + 15 + ExprSize(r) then HeightE(r, jz + 15, h, pc)
      else TruthHeight(pc - (jz + 15 + ExprSize(r)), h)
    case Assign(_, a) =>
      var dup := base + ExprSize(a);
      if pc < dup then HeightE(a, base, h, pc)
      else if pc == dup then Some(h + 1)
      else if pc == dup + 1 then Some(h + 2) else None
    case Update(_, _, a) =>
      var op := base + 2 + ExprSize(a);
      if pc == base then Some(h)
      else if base + 2 <= pc < op then HeightE(a, base + 2, h + 1, pc)
      else if pc == op then Some(h + 2)
      else if pc == op + 1 then Some(h + 1)
      else if pc == op + 2 then Some(h + 2) else None
  }

  function PostHeight(o: int, h: nat): Option<nat> {
    if o == 0 then Some(h) else if o == 2 then Some(h + 1) else if o == 3 then Some(h + 2)
    else if o == 8 then Some(h + 3) else if o == 9 then Some(h + 2) else None
  }

  function PreHeight(o: int, h: nat): Option<nat> {
    if o == 0 then Some(h) else if o == 2 then Some(h + 1) else if o == 7 then Some(h + 2)
    else if o == 8 then Some(h + 1) else if o == 9 then Some(h + 2) else None
  }

  /** Heights in the ending of a short-circuit operator. */
  function TruthHeight(o: int, h: nat): Option<nat> {
    if o == 0 then Some(h + 1) else if o == 5 then Some(h) else if o == 10 then Some(h + 1)
    else if o == 15 then Some(h) else None
  }

  function HeightD(ds: Decls, base: int, pc: int): Option<nat> {
    match ds
    case NoDecls => None
    case Declare(_, None, rest) => HeightD(rest, base, pc)
    case Declare(_, Some(e), rest) =>
      var store := base + ExprSize(e);
      if pc < store then HeightE(e, base, 0, pc)
      else if pc == store then Some(1)
      else if pc < store + 2 then None
      else HeightD(rest, store + 2, pc)
  }

  /** An expression and the one instruction after it. */
  function HeightX(e: Expr, base: int, pc: int): Option<nat> {
    if pc < base + ExprSize(e) then HeightE(e, base, 0, pc)
    else if pc == base + ExprSize(e) then Some(1) else None
  }

  function HeightC(c: Clause, base: int, pc: int): Option<nat> {
    match c
    case NoClause => None
    case DeclClause(ds) => HeightD(ds, base, pc)
    case ExprClause(e) => HeightX(e, base, pc)
  }

  function HeightO(e: Option<Expr>, base: int, pc: int): Option<nat> {
    if e.None? then None else HeightX(e.value, base, pc)
  }

  function HeightS(s: Stmt, base: int, pc: int): Option<nat> {
    match s
    case Empty => None
    case Block(ss) => HeightL(ss, base, pc)
    case DeclStmt(ds) => HeightD(ds, base, pc)
    case If(c, t) =>
      var body := base + ExprSize(c) + 5;
      if pc < body then HeightX(c, base, pc) else HeightS(t, body, pc)
    case IfElse(c, t, e) =>
      var body := base + ExprSize(c) + 5;
      var jmp := body + StmtSize(t);
      if pc < body then HeightX(c, base, pc)
      else if pc < jmp then HeightS(t, body, pc)
      else if pc == jmp then Some(0)
      else if pc < jmp + 5 then None
      else HeightS(e, jmp + 5, pc)
    case DoWhile(b, c) =>
      var test := base + StmtSize(b);
      var jmp := test + ExprSize(c) + 5;
      if pc < test then HeightS(b, base, pc)
      else if pc < jmp then HeightX(c, test, pc)
      else if pc == jmp then Some(0) else None
    case While(c, b) =>
      var body := base + ExprSize(c) + 5;
      var jmp := body + StmtSize(b);
      if pc < body then HeightX(c, base, pc)
      else if pc < jmp then HeightS(b, body, pc)
      else if pc == jmp then Some(0) else None
    case For(init, test, step, b) =>
      var top := base + ClauseSize(init);
      var body := top + TestSize(test);
      var next := body + StmtSize(b);
      var jmp := next + StepSize(step);
      if pc < top then HeightC(init, base, pc)
      else if pc < body then HeightO(test, top, pc)
      else if pc < next then HeightS(b, body, pc)
      else if pc < jmp then HeightO(step, next, pc)
      else if pc == jmp then Some(0) else None
    case PutsStmt(_) => if pc == base then Some(0) else None
    case PutcStmt(e) => HeightX(e, base, pc)
    case SleepStmt(e) => HeightX(e, base, pc)
    case Break => if pc == base then Some(0) else None
    case Continue => if pc == base then Some(0) else None
    case Return(e) => HeightX(e, base, pc)
    case ExprStmt(e) => HeightX(e, base, pc)
  }

  function HeightL(ss: Stmts, base: int, pc: int): Option<nat> {
    match ss
    case Nil => None
    case Cons(s, rest) =>
      if pc < base + StmtSize(s) then HeightS(s, base, pc) else HeightL(rest, base + StmtSize(s), pc)
  }

  /** The height at offset `pc` of a compiled program. */
  function HeightP(ss: Stmts, pc: int): Option<nat> {
    if pc < StmtsSize(ss) then HeightL(ss, 0, pc)
    else if AnyReturn(ss) then None
    else if pc == StmtsSize(ss) then Some(0)
    else if pc == StmtsSize(ss) + 5 then Some(1) else None
  }

  // ----- guards of the interpreter -----

  function Pops(i: Instr): nat {
    match i
    case Arith(_) | LAnd | LOr => 2
    case Puts(_) | Exit(_) | PushConst(_) | PushVar(_) | Jmp(_) => 0
    case _ => 1
  }

  function Pushes(i: Instr): nat {
    match i
    case Dup => 2
    case PushConst(_) | PushVar(_) | Arith(_) | LAnd | LOr | Neg | Not => 1
    case _ => 0
  }

  /** The next instruction decodes, finds its operands on the stack, leaves
      the stack within bounds, uses an existing variable and jumps inside the
      code, or straight to its end: none of the interpreter's defensive exits
      is taken, but for the one that ends the program. */
  ghost predicate Guarded(code: seq<byte>, st: State) {
    st.pc < |code| && Fetch(code, st.pc).Ins? &&
    var i := Fetch(code, st.pc).i;
    Pops(i) <= |st.stack| && |st.stack| - Pops(i) + Pushes(i) <= STACK_MAX &&
    (i.PushVar? || i.StoreVar? ==> i.slot < MAX_VARS) &&
    (i.Jmp? ==> i.target <= |code|) && (i.Jz? ==> i.target < |code|)
  }

  /** An instruction that ends the program. */
  predicate Ends(i: Instr, size: nat) {
    i.Ret? || (i.Jmp? && i.target >= size)
  }

  /** The effect of one guarded instruction on position and height. */
  lemma StepShape(code: seq<byte>, st: State, i: Instr)
    requires st.status == Running && |st.vars| == MAX_VARS
    requires CodeAt(code, st.pc, [i])
    requires Pops(i) <= |st.stack| && |st.stack| - Pops(i) + Pushes(i) <= STACK_MAX
    requires i.PushVar? || i.StoreVar? ==> i.slot < MAX_VARS
    requires (i.Jmp? ==> i.target <= |code|) && (i.Jz? ==> i.target < |code|)
    requires !i.Exit? && (i.Puts? ==> 0 in i.text)
    ensures Guarded(code, st)
    ensures var t := Step(code, st);
      if Ends(i, |code|) then t.status == Halted
      else
        t.status == Running && |t.stack| == |st.stack| - Pops(i) + Pushes(i) &&
        (t.pc == (if i.Jmp? then i.target else st.pc + InstrSize(i)) || (i.Jz? && t.pc == i.target))
    ensures i.Jz? && Top(st.stack) == 0 ==> Step(code, st).pc == i.target
  {
    hide Fetch;
    StepIns(code, st, i);
    ShapeOf(i, |code|, st.(pc := st.pc + InstrSize(i)));
  }

  lemma ShapeOf(i: Instr, size: nat, st: State)
    requires st.status == Running && |st.vars| == MAX_VARS
    requires Pops(i) <= |st.stack| && |st.stack| - Pops(i) + Pushes(i) <= STACK_MAX
    requires i.PushVar? || i.StoreVar? ==> i.slot < MAX_VARS
    requires (i.Jmp? ==> i.target <= size) && (i.Jz? ==> i.target < size)
    requires !i.Exit? && (i.Puts? ==> 0 in i.text)
    ensures var t := Perform(i, size, st);
      if Ends(i, size) then t.status == Halted
      else
        t.status == Running && |t.stack| == |st.stack| - Pops(i) + Pushes(i) &&
        (t.pc == (if i.Jmp? then i.target else st.pc) || (i.Jz? && t.pc == i.target))
    ensures i.Jz? && Top(st.stack) == 0 ==> Perform(i, size, st).pc == i.target
  {
  }

  // ----- expressions -----

  /** `t` is inside `e` at the right height, or just past it with one value. */
  ghost predicate InExpr(e: Expr, base: nat, h: nat, t: State) {
    t.status == Running &&
    (HeightE(e, base, h, t.pc) == Some(|t.stack|) || (t.pc == base + ExprSize(e) && |t.stack| == h + 1))
  }

  ghost predicate ExprHere(code: seq<byte>, e: Expr, base: nat, h: nat, st: State) {
    ExprOk(e) && st.status == Running && |st.vars| == MAX_VARS &&
    CodeAt(code, base, GenExpr(e, base)) && h + Depth(e) <= STACK_MAX &&
    base + ExprSize(e) < |code| < 0x1_0000_0000 &&
    HeightE(e, base, h, st.pc) == Some(|st.stack|)
  }

  lemma {:induction false} HeightStart(e: Expr, base: int, h: nat)
    ensures HeightE(e, base, h, base) == Some(h)
  {
    match e
    case LogNot(a) => HeightStart(a, base, h);
    case Minus(a) => HeightStart(a, base, h);
    case Bin(_, l, r) => HeightStart(l, base, h);
    case AndAlso(l, r) => HeightStart(l, base, h);
    case OrElse(l, r) => HeightStart(l, base, h);
    case Assign(_, a) => HeightStart(a, base, h);
    case _ =>
  }

  lemma {:induction false} HeightBounds(e: Expr, base: int, h: nat, pc: int)
    requires HeightE(e, base, h, pc).Some?
    ensures base <= pc < base + ExprSize(e)
  {
    match e
    case LogNot(a) => if pc < base + ExprSize(a) { HeightBounds(a, base, h, pc); }
    case Minus(a) => if pc < base + ExprSize(a) { HeightBounds(a, base, h, pc); }
    case Bin(_, l, r) => if pc < base + ExprSize(l) { HeightBounds(l, base, h, pc); }
    case AndAlso(l, r) => if pc < base + ExprSize(l) { HeightBounds(l, base, h, pc); }
    case OrElse(l, r) => if pc < base + ExprSize(l) { HeightBounds(l, base, h, pc); }
    case Assign(_, a) => if pc < base + ExprSize(a) { HeightBounds(a, base, h, pc); }
    case _ =>
  }

  lemma {:induction false} ExprStep(code: seq<byte>, e: Expr, base: nat, h: nat, st: State)
    requires ExprHere(code, e, base, h, st)
    ensures Guarded(code, st)
    ensures InExpr(e, base, h, Step(code, st))
    decreases e, 1
  {
    hide CodeAt, GenExpr, Guarded, Step, HeightE, Depth, ExprSize;
    if e.AndAlso? {
      AndStep(code, e, base, h, st);
    } else if e.OrElse? {
      OrStep(code, e, base, h, st);
    } else if e.Bin? {
      BinStep(code, e, base, h, st);
    } else if e.Update? {
      UpdateStep(code, e, base, h, st);
    } else if e.LogNot? || e.Minus? || e.Assign? {
      UnaryStep(code, e, base, h, st);
    } else {
      LeafStep(code, e, base, h, st);
    }
  }

  lemma LeafStep(code: seq<byte>, e: Expr, base: nat, h: nat, st: State)
    requires ExprHere(code, e, base, h, st) && Leaf(e)
    ensures Guarded(code, st)
    ensures InExpr(e, base, h, Step(code, st))
  {
    hide CodeAt, Guarded, Step;
    if e.Num? {
      StepShape(code, st, PushConst(e.v));
    } else if e.Var? {
      StepShape(code, st, PushVar(e.x));
    } else if e.PostInc? || e.PostDec? {
      PostStep(code, e, base, h, st);
    } else {
      PreStep(code, e, base, h, st);
    }
  }

  lemma PostStep(code: seq<byte>, e: Expr, base: nat, h: nat, st: State)
    requires ExprHere(code, e, base, h, st) && (e.PostInc? || e.PostDec?)
    ensures Guarded(code, st)
    ensures InExpr(e, base, h, Step(code, st))
  {
    hide CodeAt, Guarded, Step;
    var op := Arith(if e.PostInc? then Add else Sub);
    At5(code, base, PushVar(e.x), Dup, PushConst(1), op, StoreVar(e.x));
    var o := st.pc - base;
    StepShape(code, st, if o == 0 then PushVar(e.x) else if o == 2 then Dup
      else if o == 3 then PushConst(1) else if o == 8 then op else StoreVar(e.x));
  }

  lemma PreStep(code: seq<byte>, e: Expr, base: nat, h: nat, st: State)
    requires ExprHere(code, e, base, h, st) && (e.PreInc? || e.PreDec?)
    ensures Guarded(code, st)
    ensures InExpr(e, base, h, Step(code, st))
  {
    hide CodeAt, Guarded, Step;
    var op := Arith(if e.PreInc? then Add else Sub);
    At5(code, base, PushVar(e.x), PushConst(1), op, Dup, StoreVar(e.x));
    var o := st.pc - base;
    StepShape(code, st, if o == 0 then PushVar(e.x) else if o == 2 then PushConst(1)
      else if o == 7 then op else if o == 8 then Dup else StoreVar(e.x));
  }

  lemma {:induction false} UnaryStep(code: seq<byte>, e: Expr, base: nat, h: nat, st: State)
    requires ExprHere(code, e, base, h, st) && (e.LogNot? || e.Minus? || e.Assign?)
    ensures Guarded(code, st)
    ensures InExpr(e, base, h, Step(code, st))
    decreases e, 0
  {
    hide CodeAt, Guarded, Step, GenExpr, Size;
    var end := base + ExprSize(e.e);
    UnfoldUnary(e, base);
    CodeAtAppend(code, base, GenExpr(e.e, base), UnaryTail(e));
    GenExprSize(e.e, base);
    if st.pc < end {
      ExprStep(code, e.e, base, h, st);
      StillIn(e.e, base, h, Step(code, st));
    } else {
      if e.Assign? {
        At2(code, end, Dup, StoreVar(e.x));
      }
      StepShape(code, st, UnaryTail(e)[if st.pc == end then 0 else 1]);
    }
  }

  lemma StillIn(e: Expr, base: nat, h: nat, t: State)
    requires InExpr(e, base, h, t)
    ensures base <= t.pc <= base + ExprSize(e)
    ensures t.pc < base + ExprSize(e) ==> HeightE(e, base, h, t.pc) == Some(|t.stack|)
    ensures t.pc == base + ExprSize(e) ==> |t.stack| == h + 1
  {
    hide HeightE, ExprSize;
    if HeightE(e, base, h, t.pc).Some? {
      HeightBounds(e, base, h, t.pc);
    }
  }

  lemma {:induction false} BinStep(code: seq<byte>, e: Expr, base: nat, h: nat, st: State)
    requires ExprHere(code, e, base, h, st) && e.Bin?
    ensures Guarded(code, st)
    ensures InExpr(e, base, h, Step(code, st))
    decreases e, 0
  {
    hide CodeAt, Guarded, Step, GenExpr;
    BinLayout(code, e, base);
    var right := base + ExprSize(e.l);
    if st.pc < right {
      ExprStep(code, e.l, base, h, st);
      StillIn(e.l, base, h, Step(code, st));
      HeightStart(e.r, right, h + 1);
    } else if st.pc < right + ExprSize(e.r) {
      ExprStep(code, e.r, right, h + 1, st);
      StillIn(e.r, right, h + 1, Step(code, st));
    } else {
      StepShape(code, st, Arith(e.op));
    }
  }

  lemma {:induction false} UpdateStep(code: seq<byte>, e: Expr, base: nat, h: nat, st: State)
    requires ExprHere(code, e, base, h, st) && e.Update?
    ensures Guarded(code, st)
    ensures InExpr(e, base, h, Step(code, st))
    decreases e, 0
  {
    hide CodeAt, Guarded, Step, GenExpr;
    UpdateLayout(code, e, base);
    var op := base + 2 + ExprSize(e.e);
    if st.pc == base {
      StepShape(code, st, PushVar(e.x));
      HeightStart(e.e, base + 2, h + 1);
    } else if st.pc < op {
      ExprStep(code, e.e, base + 2, h + 1, st);
      StillIn(e.e, base + 2, h + 1, Step(code, st));
    } else {
      StepShape(code, st, if st.pc == op then Arith(e.op) else if st.pc == op + 1 then Dup else StoreVar(e.x));
    }
  }

  /** The instruction `i` at `st.pc` is run with height `h'`; `o` tells where
      in the truth-value ending it stands. */
  lemma TruthStep(code: seq<byte>, at: nat, no: nat, h: nat, st: State)
    requires st.status == Running && |st.vars| == MAX_VARS && h + 1 <= STACK_MAX
    requires no == at + 15 && no + 5 < |code| < 0x1_0000_0000
    requires CodeAt(code, at, [Jz(U32(no)), PushConst(1), Jmp(U32(no + 5)), PushConst(0)])
    requires TruthHeight(st.pc - at, h) == Some(|st.stack|)
    ensures Guarded(code, st)
    ensures var t := Step(code, st);
      t.status == Running &&
      (TruthHeight(t.pc - at, h) == Some(|t.stack|) || (t.pc == at + 20 && |t.stack| == h + 1))
  {
    hide CodeAt, Guarded, Step;
    At4(code, at, Jz(U32(no)), PushConst(1), Jmp(U32(no + 5)), PushConst(0));
    var o := st.pc - at;
    StepShape(code, st, if o == 0 then Jz(U32(no)) else if o == 5 then PushConst(1)
      else if o == 10 then Jmp(U32(no + 5)) else PushConst(0));
  }

  /** The three instructions after the left operand of `||`. */
  lemma OrMidStep(code: seq<byte>, at: nat, rhs: nat, end: nat, h: nat, st: State)
    requires st.status == Running && |st.vars| == MAX_VARS && h + 1 <= STACK_MAX
    requires rhs == at + 15 && rhs < |code| && end < |code| < 0x1_0000_0000
    requires CodeAt(code, at, [Jz(U32(rhs)), PushConst(1), Jmp(U32(end))])
    requires st.pc < rhs && TruthHeight(st.pc - at, h) == Some(|st.stack|)
    ensures Guarded(code, st)
    ensures var t := Step(code, st);
      t.status == Running &&
      ((t.pc < rhs && TruthHeight(t.pc - at, h) == Some(|t.stack|)) || (t.pc == rhs && |t.stack| == h) ||
       (t.pc == end && |t.stack| == h + 1))
  {
    hide CodeAt, Guarded, Step;
    At3(code, at, Jz(U32(rhs)), PushConst(1), Jmp(U32(end)));
    var o := st.pc - at;
    StepShape(code, st, if o == 0 then Jz(U32(rhs)) else if o == 5 then PushConst(1) else Jmp(U32(end)));
  }

  lemma {:induction false} AndStep(code: seq<byte>, e: Expr, base: nat, h: nat, st: State)
    requires ExprHere(code, e, base, h, st) && e.AndAlso?
    ensures Guarded(code, st)
    ensures InExpr(e, base, h, Step(code, st))
    decreases e, 0
  {
    hide CodeAt, Guarded, Step, GenExpr, TruthHeight, Depth, HeightE;
    LogicLayout(code, e, base);
    LogicDepth(e);
    LogicHeight(e, base, h);
    var jz := base + ExprSize(e.l);
    var rhs := RightBase(e, base);
    var test := rhs + ExprSize(e.r);
    HeightStart(e.r, rhs, h);
    TruthStarts(h);
    if st.pc < jz {
      ExprStep(code, e.l, base, h, st);
      StillIn(e.l, base, h, Step(code, st));
    } else if st.pc < rhs {
      StepShape(code, st, Jz(U32(test + 15)));
    } else if st.pc < test {
      ExprStep(code, e.r, rhs, h, st);
      StillIn(e.r, rhs, h, Step(code, st));
    } else {
      TruthStep(code, test, test + 15, h, st);
      TruthNear(Step(code, st).pc - test, h);
    }
  }

  lemma {:induction false} OrStep(code: seq<byte>, e: Expr, base: nat, h: nat, st: State)
    requires ExprHere(code, e, base, h, st) && e.OrElse?
    ensures Guarded(code, st)
    ensures InExpr(e, base, h, Step(code, st))
    decreases e, 0
  {
    hide CodeAt, Guarded, Step, GenExpr, TruthHeight, Depth, HeightE;
    LogicLayout(code, e, base);
    LogicDepth(e);
    LogicHeight(e, base, h);
    var jz := base + ExprSize(e.l);
    var rhs := RightBase(e, base);
    var test := rhs + ExprSize(e.r);
    HeightStart(e.r, rhs, h);
    TruthStarts(h);
    if st.pc < jz {
      ExprStep(code, e.l, base, h, st);
      StillIn(e.l, base, h, Step(code, st));
    } else if st.pc < rhs {
      OrMidStep(code, jz, rhs, test + 20, h, st);
      TruthNear(Step(code, st).pc - jz, h);
    } else if st.pc < test {
      ExprStep(code, e.r, rhs, h, st);
      StillIn(e.r, rhs, h, Step(code, st));
    } else {
      TruthStep(code, test, test + 15, h, st);
      TruthNear(Step(code, st).pc - test, h);
    }
  }

  lemma LogicHeight(e: Expr, base: int, h: nat)
    requires e.AndAlso? || e.OrElse?
    ensures var jz := base + ExprSize(e.l);
      var rhs := RightBase(e, base);
      var test := rhs + ExprSize(e.r);
      forall pc :: HeightE(e, base, h, pc) ==
        if pc < jz then HeightE(e.l, base, h, pc)
        else if pc < rhs then
          (if e.OrElse? then TruthHeight(pc - jz, h) else if pc == jz then Some(h + 1) else None)
        else if pc < test then HeightE(e.r, rhs, h, pc)
        else TruthHeight(pc - test, h)
  {
    hide TruthHeight;
    if e.AndAlso? {
      forall pc | base + ExprSize(e.l) < pc < RightBase(e, base) ensures HeightE(e.r, RightBase(e, base), h, pc).None? {
        if HeightE(e.r, RightBase(e, base), h, pc).Some? {
          HeightBounds(e.r, RightBase(e, base), h, pc);
        }
      }
    }
  }

  lemma LogicDepth(e: Expr)
    requires e.AndAlso? || e.OrElse?
    ensures Depth(e.l) <= Depth(e) && Depth(e.r) <= Depth(e) && Depth(e) >= 1
  {
  }

  lemma TruthStarts(h: nat)
    ensures TruthHeight(0, h) == Some(h + 1) && TruthHeight(15, h) == Some(h)
  {
  }

  lemma TruthNear(o: int, h: nat)
    ensures TruthHeight(o, h).Some? ==> 0 <= o <= 15
  {
  }

  // ----- an expression and what consumes it -----

  ghost predicate InX(e: Expr, i: Instr, base: nat, t: State) {
    if t.status == Halted then i.Ret?
    else
      t.status == Running &&
      (HeightX(e, base, t.pc) == Some(|t.stack|) ||
       (t.stack == [] && (t.pc == base + ExprSize(e) + InstrSize(i) || (i.Jz? && t.pc == i.target))))
  }

  lemma XStep(code: seq<byte>, e: Expr, i: Instr, base: nat, st: State)
    requires ExprOk(e) && st.status == Running && |st.vars| == MAX_VARS && Depth(e) <= STACK_MAX
    requires CodeAt(code, base, GenExpr(e, base)) && CodeAt(code, base + ExprSize(e), [i])
    requires i == Pop || i == Putc || i == Sleep || i == Ret || (i.Jz? && i.target < |code|) ||
      (i.StoreVar? && i.slot < MAX_VARS)
    requires base + ExprSize(e) < |code| < 0x1_0000_0000
    requires HeightX(e, base, st.pc) == Some(|st.stack|)
    ensures Guarded(code, st) && InX(e, i, base, Step(code, st))
    ensures HeightX(e, base, base) == Some(0)
  {
    hide CodeAt, Guarded, Step, GenExpr, HeightE, ExprSize, Depth;
    HeightStart(e, base, 0);
    XStart(e, base);
    if st.pc < base + ExprSize(e) {
      ExprStep(code, e, base, 0, st);
      StillIn(e, base, 0, Step(code, st));
    } else {
      StepShape(code, st, i);
    }
  }

  lemma XStart(e: Expr, base: int)
    ensures HeightX(e, base, base) == Some(0)
    ensures forall pc :: HeightX(e, base, pc).Some? ==> base <= pc <= base + ExprSize(e)
  {
    HeightStart(e, base, 0);
    forall pc | HeightX(e, base, pc).Some? ensures base <= pc <= base + ExprSize(e) {
      if pc < base + ExprSize(e) {
        HeightBounds(e, base, 0, pc);
      }
    }
  }

  // ----- statements -----

  /** `t` halted through a return or a jump to the end of the code, or is
      inside `s` at the right height, or left it with an empty stack: past the
      end or through a break or continue. */
  ghost predicate InStmt(s: Stmt, base: nat, brk: u32, cont: u32, t: State, size: nat) {
    if t.status == Halted then HasReturn(s) || base + StmtSize(s) == size || (HasBreak(s) && brk == size)
    else
      t.status == Running &&
      (HeightS(s, base, t.pc) == Some(|t.stack|) ||
       (t.stack == [] &&
        (t.pc == base + StmtSize(s) || (HasBreak(s) && t.pc == brk) || (HasContinue(s) && t.pc == cont))))
  }

  ghost predicate InList(ss: Stmts, base: nat, brk: u32, cont: u32, t: State, size: nat) {
    if t.status == Halted then AnyReturn(ss) || base + StmtsSize(ss) == size || (AnyBreak(ss) && brk == size)
    else
      t.status == Running &&
      (HeightL(ss, base, t.pc) == Some(|t.stack|) ||
       (t.stack == [] &&
        (t.pc == base + StmtsSize(ss) || (AnyBreak(ss) && t.pc == brk) || (AnyContinue(ss) && t.pc == cont))))
  }

  ghost predicate Ready(code: seq<byte>, st: State) {
    st.status == Running && |st.vars| == MAX_VARS && |code| < 0x1_0000_0000
  }

  ghost predicate StmtHere(code: seq<byte>, s: Stmt, base: nat, brk: u32, cont: u32) {
    StmtOk(s) && StmtDepth(s) <= STACK_MAX && PlainSteps(s) &&
    CodeAt(code, base, GenStmt(s, base, brk, cont)) && TargetsIn(code, s, base, brk, cont)
  }

  ghost predicate ListHere(code: seq<byte>, ss: Stmts, base: nat, brk: u32, cont: u32) {
    StmtsOk(ss) && StmtsDepth(ss) <= STACK_MAX && AllPlainSteps(ss) &&
    CodeAt(code, base, GenStmts(ss, base, brk, cont)) && ListTargetsIn(code, ss, base, brk, cont)
  }

  lemma {:induction false} StartD(ds: Decls, base: int)
    ensures DeclsSize(ds) > 0 ==> HeightD(ds, base, base) == Some(0)
  {
    match ds
    case NoDecls =>
    case Declare(_, None, rest) => StartD(rest, base);
    case Declare(_, Some(e), rest) => HeightStart(e, base, 0);
  }

  lemma StartC(c: Clause, base: int)
    ensures ClauseSize(c) > 0 ==> HeightC(c, base, base) == Some(0)
  {
    match c
    case NoClause =>
    case DeclClause(ds) => StartD(ds, base);
    case ExprClause(e) => XStart(e, base);
  }

  lemma StartO(e: Option<Expr>, base: int)
    ensures e.Some? ==> HeightO(e, base, base) == Some(0)
  {
    if e.Some? {
      XStart(e.value, base);
    }
  }

  lemma {:induction false} StartS(s: Stmt, base: int)
    ensures StmtSize(s) > 0 ==> HeightS(s, base, base) == Some(0)
    decreases s, 1
  {
    hide HeightE, ExprSize;
    if s.If? || s.IfElse? || s.While? {
      XStart(s.cond, base);
    } else if s.PutcStmt? || s.SleepStmt? || s.Return? || s.ExprStmt? {
      XStart(s.e, base);
    } else if s.DoWhile? {
      StartS(s.loopBody, base);
      XStart(s.cond, base);
    } else if s.For? {
      ForStarts(s, base);
    } else if s.Block? {
      StartL(s.body, base);
    } else if s.DeclStmt? {
      StartD(s.ds, base);
    }
  }

  lemma {:induction false} StartL(ss: Stmts, base: int)
    ensures StmtsSize(ss) > 0 ==> HeightL(ss, base, base) == Some(0)
    decreases ss, 0
  {
    hide HeightS, StmtSize;
    if ss.Cons? {
      StartS(ss.head, base);
      StartL(ss.tail, base + StmtSize(ss.head));
    }
  }

  /** The four places control can enter a `for` at. */
  lemma {:induction false} ForStarts(s: Stmt, base: int)
    requires s.For?
    ensures var top := base + ClauseSize(s.init);
      var body := top + TestSize(s.test);
      var next := body + StmtSize(s.loopBody);
      HeightS(s, base, base) == HeightS(s, base, top) == HeightS(s, base, body) == HeightS(s, base, next) ==
        HeightS(s, base, next + StepSize(s.step)) == Some(0)
    decreases s, 0
  {
    hide HeightE, ExprSize, HeightX, HeightC, ClauseSize;
    var top := base + ClauseSize(s.init);
    var body := top + TestSize(s.test);
    var next := body + StmtSize(s.loopBody);
    StartC(s.init, base);
    StartO(s.test, top);
    StartS(s.loopBody, body);
    StartO(s.step, next);
  }

  lemma {:induction false} StmtStep(code: seq<byte>, s: Stmt, base: nat, brk: u32, cont: u32, st: State)
    requires Ready(code, st) && StmtHere(code, s, base, brk, cont)
    requires HeightS(s, base, st.pc) == Some(|st.stack|)
    ensures Guarded(code, st) && InStmt(s, base, brk, cont, Step(code, st), |code|)
    decreases s, 2
  {
    hide CodeAt, Guarded, Step, GenStmt, InStmt, StmtHere, HeightS;
    if s.Block? {
      BlockStep(code, s, base, brk, cont, st);
    } else if s.If? || s.IfElse? {
      BranchStep(code, s, base, brk, cont, st);
    } else if s.While? {
      WhileStep(code, s, base, brk, cont, st);
    } else if s.DoWhile? {
      DoStep(code, s, base, brk, cont, st);
    } else if s.For? {
      ForStep(code, s, base, brk, cont, st);
    } else {
      BasicStep(code, s, base, brk, cont, st);
    }
  }

  lemma BasicStep(code: seq<byte>, s: Stmt, base: nat, brk: u32, cont: u32, st: State)
    requires !s.If? && !s.IfElse? && !s.While? && !s.For? && !s.DoWhile? && !s.Block?
    requires Ready(code, st) && StmtHere(code, s, base, brk, cont)
    requires HeightS(s, base, st.pc) == Some(|st.stack|)
    ensures Guarded(code, st) && InStmt(s, base, brk, cont, Step(code, st), |code|)
  {
    hide CodeAt, Guarded, Step, GenExpr, HeightE, ExprSize, Depth;
    if s.Break? || s.Continue? {
      StepShape(code, st, if s.Break? then Jmp(brk) else Jmp(cont));
    } else if s.PutsStmt? {
      assert (s.text + [0])[|s.text|] == 0;
      StepShape(code, st, Puts(s.text + [0]));
    } else if s.DeclStmt? {
      DeclsStep(code, s.ds, base, st);
    } else if s.PutcStmt? || s.SleepStmt? || s.Return? || s.ExprStmt? {
      var i := if s.PutcStmt? then Putc else if s.SleepStmt? then Sleep else if s.Return? then Ret else Pop;
      CodeAtAppend(code, base, GenExpr(s.e, base), [i]);
      GenExprSize(s.e, base);
      XStep(code, s.e, i, base, st);
    }
  }

  lemma {:induction false} DeclsStep(code: seq<byte>, ds: Decls, base: nat, st: State)
    requires Ready(code, st) && DeclsOk(ds) && DeclsDepth(ds) <= STACK_MAX
    requires CodeAt(code, base, GenDecls(ds, base)) && base + DeclsSize(ds) <= |code|
    requires HeightD(ds, base, st.pc) == Some(|st.stack|)
    ensures Guarded(code, st)
    ensures var t := Step(code, st);
      t.status == Running &&
      (HeightD(ds, base, t.pc) == Some(|t.stack|) || (t.stack == [] && t.pc == base + DeclsSize(ds)))
    decreases ds
  {
    hide CodeAt, Guarded, Step, GenExpr, HeightE, ExprSize, Depth;
    match ds
    case NoDecls =>
    case Declare(_, None, rest) => DeclsStep(code, rest, base, st);
    case Declare(x, Some(e), rest) =>
      var next := base + ExprSize(e) + 2;
      CodeAtAppend(code, base, GenExpr(e, base), [StoreVar(x)] + GenDecls(rest, next));
      GenExprSize(e, base);
      CodeAtAppend(code, next - 2, [StoreVar(x)], GenDecls(rest, next));
      SizeOne(StoreVar(x));
      StartD(rest, next);
      XStart(e, base);
      BoundsD(rest, next);
      if st.pc < next {
        XStep(code, e, StoreVar(x), base, st);
      } else {
        DeclsStep(code, rest, next, st);
      }
  }

  lemma {:induction false} BoundsD(ds: Decls, base: int)
    ensures forall pc :: HeightD(ds, base, pc).Some? ==> base <= pc < base + DeclsSize(ds)
  {
    hide HeightD, DeclsSize;
    forall pc | HeightD(ds, base, pc).Some? ensures base <= pc < base + DeclsSize(ds) {
      DeclAt(ds, base, pc);
    }
  }

  lemma {:induction false} DeclAt(ds: Decls, base: int, pc: int)
    requires HeightD(ds, base, pc).Some?
    ensures base <= pc < base + DeclsSize(ds)
    decreases ds
  {
    match ds
    case NoDecls =>
    case Declare(_, None, rest) => DeclAt(rest, base, pc);
    case Declare(_, Some(e), rest) =>
      if pc < base + ExprSize(e) {
        HeightBounds(e, base, 0, pc);
      } else if pc >= base + ExprSize(e) + 2 {
        DeclAt(rest, base + ExprSize(e) + 2, pc);
      }
  }

  lemma {:induction false} BlockStep(code: seq<byte>, s: Stmt, base: nat, brk: u32, cont: u32, st: State)
    requires s.Block? && Ready(code, st) && StmtHere(code, s, base, brk, cont)
    requires HeightS(s, base, st.pc) == Some(|st.stack|)
    ensures Guarded(code, st) && InStmt(s, base, brk, cont, Step(code, st), |code|)
    decreases s, 1
  {
    hide CodeAt, Guarded, Step;
    ListStep(code, s.body, base, brk, cont, st);
  }

  lemma {:induction false} ListStep(code: seq<byte>, ss: Stmts, base: nat, brk: u32, cont: u32, st: State)
    requires Ready(code, st) && ListHere(code, ss, base, brk, cont)
    requires HeightL(ss, base, st.pc) == Some(|st.stack|)
    ensures Guarded(code, st) && InList(ss, base, brk, cont, Step(code, st), |code|)
    decreases ss, 3
  {
    hide CodeAt, Guarded, Step, GenStmt, HeightS, StmtSize, HasReturn, HasBreak, HasContinue, JumpsToEnd;
    hide PlainSteps, StmtDepth, StmtOk;
    if ss.Cons? {
      var next := base + StmtSize(ss.head);
      CodeAtAppend(code, base, GenStmt(ss.head, base, brk, cont), GenStmts(ss.tail, next, brk, cont));
      GenStmtSize(ss.head, base, brk, cont);
      StartL(ss.tail, next);
      BoundsS(ss.head, base);
      BoundsL(ss.tail, next);
      if st.pc < next {
        StmtStep(code, ss.head, base, brk, cont, st);
      } else {
        ListStep(code, ss.tail, next, brk, cont, st);
      }
    }
  }

  lemma {:induction false} BoundsS(s: Stmt, base: int)
    ensures forall pc :: HeightS(s, base, pc).Some? ==> base <= pc < base + StmtSize(s)
    decreases s, 1
  {
    hide HeightE, ExprSize, HeightX, HeightC, HeightO, HeightD, ClauseSize, TestSize, StepSize;
    forall pc | HeightS(s, base, pc).Some? ensures base <= pc < base + StmtSize(s) {
      BoundsAt(s, base, pc);
    }
  }

  lemma {:induction false} BoundsAt(s: Stmt, base: int, pc: int)
    requires HeightS(s, base, pc).Some?
    ensures base <= pc < base + StmtSize(s)
    decreases s, 0
  {
    hide HeightE, ExprSize;
    if s.If? || s.IfElse? {
      XStart(s.cond, base);
      BoundsS(s.thn, base + ExprSize(s.cond) + 5);
      if s.IfElse? {
        BoundsS(s.els, base + ExprSize(s.cond) + 5 + StmtSize(s.thn) + 5);
      }
    } else if s.While? {
      XStart(s.cond, base);
      BoundsS(s.loopBody, base + ExprSize(s.cond) + 5);
    } else if s.DoWhile? {
      XStart(s.cond, base + StmtSize(s.loopBody));
      BoundsS(s.loopBody, base);
    } else if s.PutcStmt? || s.SleepStmt? || s.Return? || s.ExprStmt? {
      XStart(s.e, base);
    } else if s.Block? {
      BoundsL(s.body, base);
    } else if s.DeclStmt? {
      BoundsD(s.ds, base);
    } else if s.For? {
      BoundsC(s.init, base);
    }
  }

  lemma BoundsC(c: Clause, base: int)
    ensures forall pc :: HeightC(c, base, pc).Some? ==> base <= pc < base + ClauseSize(c)
  {
    hide HeightE, ExprSize;
    match c
    case NoClause =>
    case DeclClause(ds) => BoundsD(ds, base);
    case ExprClause(e) => XStart(e, base);
  }

  lemma {:induction false} BoundsL(ss: Stmts, base: int)
    ensures forall pc :: HeightL(ss, base, pc).Some? ==> base <= pc < base + StmtsSize(ss)
    decreases ss, 0
  {
    hide HeightS, StmtSize;
    if ss.Cons? {
      BoundsS(ss.head, base);
      BoundsL(ss.tail, base + StmtSize(ss.head));
    }
  }

  lemma BranchHeight(s: Stmt, base: int)
    requires s.If? || s.IfElse?
    ensures var body := base + ExprSize(s.cond) + 5;
      var jmp := body + StmtSize(s.thn);
      forall pc :: HeightS(s, base, pc) ==
        if pc < body then HeightX(s.cond, base, pc)
        else if s.If? then HeightS(s.thn, body, pc)
        else if pc < jmp then HeightS(s.thn, body, pc)
        else if pc == jmp then Some(0)
        else if pc < jmp + 5 then None
        else HeightS(s.els, jmp + 5, pc)
  {
  }

  lemma LoopHeight(s: Stmt, base: int)
    requires s.While? || s.DoWhile?
    ensures s.While? ==>
      var body := base + ExprSize(s.cond) + 5;
      var jmp := body + StmtSize(s.loopBody);
      forall pc :: HeightS(s, base, pc) ==
        if pc < body then HeightX(s.cond, base, pc)
        else if pc < jmp then HeightS(s.loopBody, body, pc)
        else if pc == jmp then Some(0) else None
    ensures s.DoWhile? ==>
      var test := base + StmtSize(s.loopBody);
      var jmp := test + ExprSize(s.cond) + 5;
      forall pc :: HeightS(s, base, pc) ==
        if pc < test then HeightS(s.loopBody, base, pc)
        else if pc < jmp then HeightX(s.cond, test, pc)
        else if pc == jmp then Some(0) else None
  {
  }

  lemma ForHeight(s: Stmt, base: int)
    requires s.For?
    ensures var top := base + ClauseSize(s.init);
      var body := top + TestSize(s.test);
      var next := body + StmtSize(s.loopBody);
      var jmp := next + StepSize(s.step);
      forall pc :: HeightS(s, base, pc) ==
        if pc < top then HeightC(s.init, base, pc)
        else if pc < body then HeightO(s.test, top, pc)
        else if pc < next then HeightS(s.loopBody, body, pc)
        else if pc < jmp then HeightO(s.step, next, pc)
        else if pc == jmp then Some(0) else None
  {
  }

  lemma BranchHere(code: seq<byte>, s: Stmt, base: nat, brk: u32, cont: u32)
    requires (s.If? || s.IfElse?) && StmtHere(code, s, base, brk, cont) && |code| < 0x1_0000_0000
    ensures ExprOk(s.cond) && Depth(s.cond) <= STACK_MAX && base + StmtSize(s) <= |code|
    ensures ElseAt(s, base) <= base + StmtSize(s) && ElseAt(s, base) < |code|
    ensures CodeAt(code, base, GenExpr(s.cond, base)) &&
      CodeAt(code, base + ExprSize(s.cond), [Jz(U32(ElseAt(s, base)))])
    ensures StmtHere(code, s.thn, base + ExprSize(s.cond) + 5, brk, cont)
    ensures s.IfElse? ==> StmtHere(code, s.els, ElseAt(s, base), brk, cont)
    ensures s.IfElse? ==> CodeAt(code, ElseAt(s, base) - 5, [Jmp(U32(base + StmtSize(s)))])
  {
    hide CodeAt, GenExpr, ExprSize, Depth, GenStmt, ExprOk;
    BranchLayout(code, s, base, brk, cont);
  }

  /** Being inside a branch is being inside the statement. */
  lemma LiftBranch(s: Stmt, base: nat, brk: u32, cont: u32, t: State, size: nat)
    requires (s.If? || s.IfElse?) && base + StmtSize(s) <= size
    requires InStmt(s.thn, base + ExprSize(s.cond) + 5, brk, cont, t, size) ||
      (s.IfElse? && InStmt(s.els, ElseAt(s, base), brk, cont, t, size))
    ensures InStmt(s, base, brk, cont, t, size)
  {
    hide HeightX, ExprSize, HeightS;
    var body := base + ExprSize(s.cond) + 5;
    BranchHeight(s, base);
    BoundsS(s.thn, body);
    if s.IfElse? {
      BoundsS(s.els, ElseAt(s, base));
    }
  }

  lemma BranchSize(s: Stmt)
    requires s.If? || s.IfElse?
    ensures StmtSize(s) == ExprSize(s.cond) + 5 + StmtSize(s.thn) + if s.If? then 0 else 5 + StmtSize(s.els)
  {
    hide ExprSize;
  }

  lemma {:induction false} BranchStep(code: seq<byte>, s: Stmt, base: nat, brk: u32, cont: u32, st: State)
    requires (s.If? || s.IfElse?) && Ready(code, st) && StmtHere(code, s, base, brk, cont)
    requires HeightS(s, base, st.pc) == Some(|st.stack|)
    ensures Guarded(code, st) && InStmt(s, base, brk, cont, Step(code, st), |code|)
    decreases s, 1
  {
    hide CodeAt, Guarded, Step, GenExpr, HeightX, ExprSize, Depth, GenStmt, HeightS, StmtHere, StmtSize, PlainSteps;
    BranchHeight(s, base);
    BranchHere(code, s, base, brk, cont);
    BranchSize(s);
    var body := base + ExprSize(s.cond) + 5;
    var after := body + StmtSize(s.thn);
    if st.pc < body {
      XStart(s.cond, base);
      StartS(s.thn, body);
      if s.IfElse? {
        StartS(s.els, after + 5);
      }
      XStep(code, s.cond, Jz(U32(ElseAt(s, base))), base, st);
    } else if st.pc < after {
      StmtStep(code, s.thn, body, brk, cont, st);
      LiftBranch(s, base, brk, cont, Step(code, st), |code|);
    } else if s.IfElse? {
      if st.pc == after {
        StepShape(code, st, Jmp(U32(base + StmtSize(s))));
      } else {
        StmtStep(code, s.els, after + 5, brk, cont, st);
        LiftBranch(s, base, brk, cont, Step(code, st), |code|);
      }
    } else {
      BoundsS(s.thn, body);
    }
  }

  /** The parts of a compiled `while`, the body with its own jump targets. */
  lemma WhileHere(code: seq<byte>, s: Stmt, base: nat, brk: u32, cont: u32)
    requires s.While? && StmtHere(code, s, base, brk, cont) && |code| < 0x1_0000_0000
    ensures var body := base + ExprSize(s.cond) + 5;
      var next := body + StmtSize(s.loopBody);
      StmtHere(code, s.loopBody, body, U32(next + 5), U32(base)) && ExprOk(s.cond) && Depth(s.cond) <= STACK_MAX &&
      base + StmtSize(s) == next + 5 < |code| && U32(next + 5) == next + 5 && U32(base) == base &&
      CodeAt(code, base, GenExpr(s.cond, base)) && CodeAt(code, base + ExprSize(s.cond), [Jz(U32(next + 5))]) &&
      CodeAt(code, next, [Jmp(U32(base))])
    ensures HasReturn(s) <==> HasReturn(s.loopBody)
  {
    hide CodeAt, GenExpr, ExprSize, Depth, GenStmt, ExprOk;
    WhileLayout(code, s, base, brk, cont);
    var jz := base + ExprSize(s.cond);
    var next := jz + 5 + StmtSize(s.loopBody);
    CodeAtAppend(code, base, GenExpr(s.cond, base), [Jz(U32(next + 5))]);
    GenExprSize(s.cond, base);
    assert GenStep(None) + [Jmp(U32(base))] == [Jmp(U32(base))];
  }

  lemma {:induction false} WhileStep(code: seq<byte>, s: Stmt, base: nat, brk: u32, cont: u32, st: State)
    requires s.While? && Ready(code, st) && StmtHere(code, s, base, brk, cont)
    requires HeightS(s, base, st.pc) == Some(|st.stack|)
    ensures Guarded(code, st) && InStmt(s, base, brk, cont, Step(code, st), |code|)
    decreases s, 1
  {
    hide CodeAt, Guarded, Step, GenExpr, HeightX, ExprSize, Depth, GenStmt, HeightS, HeightE;
    LoopHeight(s, base);
    WhileHere(code, s, base, brk, cont);
    hide StmtHere, StmtSize, HasReturn, HasBreak, HasContinue;
    var body := base + ExprSize(s.cond) + 5;
    var next := body + StmtSize(s.loopBody);
    XStart(s.cond, base);
    StartS(s.loopBody, body);
    BoundsS(s.loopBody, body);
    if st.pc < body {
      XStep(code, s.cond, Jz(U32(next + 5)), base, st);
    } else if st.pc < next {
      StmtStep(code, s.loopBody, body, U32(next + 5), U32(base), st);
    } else {
      StepShape(code, st, Jmp(U32(base)));
    }
  }

  /** The loop body of a compiled `do`, with its own jump targets. */
  lemma DoHere(code: seq<byte>, s: Stmt, base: nat, brk: u32, cont: u32)
    requires s.DoWhile? && StmtHere(code, s, base, brk, cont) && |code| < 0x1_0000_0000
    ensures var test := base + StmtSize(s.loopBody);
      var jmp := test + ExprSize(s.cond) + 5;
      StmtHere(code, s.loopBody, base, U32(jmp + 5), U32(test)) && ExprOk(s.cond) && Depth(s.cond) <= STACK_MAX &&
      base + StmtSize(s) == jmp + 5 < |code| && U32(jmp + 5) == jmp + 5 && U32(test) == test && U32(base) == base &&
      CodeAt(code, test, GenExpr(s.cond, test)) && CodeAt(code, test + ExprSize(s.cond), [Jz(U32(jmp + 5))]) &&
      CodeAt(code, jmp, [Jmp(U32(base))])
    ensures HasReturn(s) <==> HasReturn(s.loopBody)
  {
    hide CodeAt, GenExpr, ExprSize, Depth, GenStmt, ExprOk;
    DoLayout(code, s, base, brk, cont);
  }

  lemma {:induction false} DoStep(code: seq<byte>, s: Stmt, base: nat, brk: u32, cont: u32, st: State)
    requires s.DoWhile? && Ready(code, st) && StmtHere(code, s, base, brk, cont)
    requires HeightS(s, base, st.pc) == Some(|st.stack|)
    ensures Guarded(code, st) && InStmt(s, base, brk, cont, Step(code, st), |code|)
    decreases s, 1
  {
    hide CodeAt, Guarded, Step, GenExpr, HeightX, ExprSize, Depth, GenStmt, HeightS, HeightE;
    LoopHeight(s, base);
    DoHere(code, s, base, brk, cont);
    hide StmtHere, StmtSize, HasReturn, HasBreak, HasContinue;
    var test := base + StmtSize(s.loopBody);
    var jmp := test + ExprSize(s.cond) + 5;
    XStart(s.cond, test);
    StartS(s.loopBody, base);
    BoundsS(s.loopBody, base);
    if st.pc < test {
      StmtStep(code, s.loopBody, base, U32(jmp + 5), U32(test), st);
    } else if st.pc < jmp {
      XStep(code, s.cond, Jz(U32(jmp + 5)), test, st);
    } else {
      StepShape(code, st, Jmp(U32(base)));
    }
  }

  lemma ClauseStep(code: seq<byte>, c: Clause, base: nat, st: State)
    requires Ready(code, st) && ClauseOk(c) && ClauseDepth(c) <= STACK_MAX
    requires CodeAt(code, base, GenClause(c, base)) && base + ClauseSize(c) <= |code|
    requires HeightC(c, base, st.pc) == Some(|st.stack|)
    ensures Guarded(code, st)
    ensures var t := Step(code, st);
      t.status == Running &&
      (HeightC(c, base, t.pc) == Some(|t.stack|) || (t.stack == [] && t.pc == base + ClauseSize(c)))
  {
    hide CodeAt, Guarded, Step, GenExpr, HeightE, ExprSize, Depth;
    match c
    case NoClause =>
    case DeclClause(ds) => DeclsStep(code, ds, base, st);
    case ExprClause(e) =>
      CodeAtAppend(code, base, GenExpr(e, base), [Pop]);
      GenExprSize(e, base);
      XStep(code, e, Pop, base, st);
  }

  /** The test or the step of a `for`, with the instruction after it. */
  lemma PartStep(code: seq<byte>, e: Option<Expr>, i: Instr, base: nat, st: State)
    requires Ready(code, st) && OptOk(e) && OptDepth(e) <= STACK_MAX && (i == Pop || (i.Jz? && i.target < |code|))
    requires e.Some? ==> CodeAt(code, base, GenExpr(e.value, base) + [i]) && base + ExprSize(e.value) < |code|
    requires HeightO(e, base, st.pc) == Some(|st.stack|)
    ensures Guarded(code, st)
    ensures e.Some? && InX(e.value, i, base, Step(code, st))
  {
    hide CodeAt, Guarded, Step, GenExpr, HeightX, ExprSize, Depth;
    CodeAtAppend(code, base, GenExpr(e.value, base), [i]);
    GenExprSize(e.value, base);
    XStep(code, e.value, i, base, st);
  }

  /** The body of a loop is compiled with the loop's own exits as targets. */
  lemma ForBodyHere(code: seq<byte>, s: Stmt, base: nat, brk: u32, cont: u32)
    requires s.For? && StmtHere(code, s, base, brk, cont) && |code| < 0x1_0000_0000
    ensures var body := base + ClauseSize(s.init) + TestSize(s.test);
      StmtHere(code, s.loopBody, body, U32(base + StmtSize(s)), U32(body + StmtSize(s.loopBody)))
  {
    hide CodeAt, GenStmt, GenTest, GenStep, GenClause, StmtOk, StmtDepth, PlainSteps, TargetsIn, StmtSize;
    ForLayout(code, s, base, brk, cont);
    ForParts(s);
    ForTargets(code, s, base, brk, cont);
  }

  lemma ForParts(s: Stmt)
    requires s.For? && StmtOk(s) && StmtDepth(s) <= STACK_MAX && PlainSteps(s)
    ensures StmtOk(s.loopBody) && StmtDepth(s.loopBody) <= STACK_MAX && PlainSteps(s.loopBody)
  {
  }

  /** The jumps out of a loop body stay inside the code of the loop. */
  lemma ForTargets(code: seq<byte>, s: Stmt, base: nat, brk: u32, cont: u32)
    requires s.For? && TargetsIn(code, s, base, brk, cont) && |code| < 0x1_0000_0000
    ensures var body := base + ClauseSize(s.init) + TestSize(s.test);
      base + StmtSize(s) == body + StmtSize(s.loopBody) + StepSize(s.step) + 5 && base + StmtSize(s) <= |code| &&
      TargetsIn(code, s.loopBody, body, U32(base + StmtSize(s)), U32(body + StmtSize(s.loopBody)))
  {
    hide ClauseSize, TestSize, StepSize;
  }

  lemma LiftForBody(s: Stmt, base: nat, brk: u32, cont: u32, t: State, size: nat)
    requires s.For? && base + StmtSize(s) <= size < 0x1_0000_0000
    requires var body := base + ClauseSize(s.init) + TestSize(s.test);
      InStmt(s.loopBody, body, U32(base + StmtSize(s)), U32(body + StmtSize(s.loopBody)), t, size)
    ensures InStmt(s, base, brk, cont, t, size)
  {
    hide HeightS, ClauseSize, TestSize, StepSize, HeightC, HeightO;
    ForHeight(s, base);
    ForStarts(s, base);
    ForSize(s);
    BoundsS(s.loopBody, base + ClauseSize(s.init) + TestSize(s.test));
  }

  lemma {:induction false} ForStep(code: seq<byte>, s: Stmt, base: nat, brk: u32, cont: u32, st: State)
    requires s.For? && Ready(code, st) && StmtHere(code, s, base, brk, cont)
    requires HeightS(s, base, st.pc) == Some(|st.stack|)
    ensures Guarded(code, st) && InStmt(s, base, brk, cont, Step(code, st), |code|)
    decreases s, 1
  {
    hide CodeAt, Guarded, Step, GenExpr, GenStmt, HeightS, HeightO, HeightC, ClauseSize, TestSize, StepSize;
    hide StmtHere, InStmt;
    ForHeight(s, base);
    ForHere(code, s, base, brk, cont);
    var body := base + ClauseSize(s.init) + TestSize(s.test);
    var next := body + StmtSize(s.loopBody);
    if body <= st.pc < next {
      ForBodyHere(code, s, base, brk, cont);
      StmtStep(code, s.loopBody, body, U32(base + StmtSize(s)), U32(next), st);
      LiftForBody(s, base, brk, cont, Step(code, st), |code|);
    } else {
      ForOuterStep(code, s, base, brk, cont, st);
    }
  }

  lemma ForHere(code: seq<byte>, s: Stmt, base: nat, brk: u32, cont: u32)
    requires s.For? && StmtHere(code, s, base, brk, cont) && |code| < 0x1_0000_0000
    ensures ClauseOk(s.init) && OptOk(s.test) && OptOk(s.step) && base + StmtSize(s) <= |code|
    ensures ClauseDepth(s.init) <= STACK_MAX && OptDepth(s.test) <= STACK_MAX && OptDepth(s.step) <= STACK_MAX
    ensures s.test.Some? ==> base + StmtSize(s) < |code|
    ensures var top := base + ClauseSize(s.init);
      var next := top + TestSize(s.test) + StmtSize(s.loopBody);
      var end := base + StmtSize(s);
      end == next + StepSize(s.step) + 5 &&
      CodeAt(code, base, GenClause(s.init, base)) &&
      (s.test.Some? ==> CodeAt(code, top, GenExpr(s.test.value, top) + [Jz(U32(end))])) &&
      (s.step.Some? ==> CodeAt(code, next, GenExpr(s.step.value, next) + [Pop])) &&
      CodeAt(code, end - 5, [Jmp(U32(top))])
  {
    hide CodeAt, GenExpr, Depth, GenStmt, GenClause, ClauseSize, ClauseDepth, ClauseOk, ExprSize;
    ForLayout(code, s, base, brk, cont);
    var top := base + ClauseSize(s.init);
    var next := top + TestSize(s.test) + StmtSize(s.loopBody);
    CodeAtAppend(code, next, GenStep(s.step), [Jmp(U32(top))]);
    GenStepSize(s.step);
    if s.step.Some? {
      Relocated(s.step.value, next);
    }
  }

  lemma ForInitStep(code: seq<byte>, s: Stmt, base: nat, brk: u32, cont: u32, st: State)
    requires s.For? && Ready(code, st) && StmtHere(code, s, base, brk, cont)
    requires HeightS(s, base, st.pc) == Some(|st.stack|)
    requires st.pc < base + ClauseSize(s.init)
    ensures Guarded(code, st) && InStmt(s, base, brk, cont, Step(code, st), |code|)
  {
    hide CodeAt, Guarded, Step, GenExpr, HeightX, ExprSize, Depth, GenStmt, HeightC, ClauseSize, HeightS, StmtHere;
    hide StmtSize, HasBreak, HasContinue, HasReturn, GenClause, ClauseDepth, ClauseOk;
    ForHeight(s, base);
    ForHere(code, s, base, brk, cont);
    ForStarts(s, base);
    BoundsC(s.init, base);
    ClauseStep(code, s.init, base, st);
  }

  lemma ForOuterStep(code: seq<byte>, s: Stmt, base: nat, brk: u32, cont: u32, st: State)
    requires s.For? && Ready(code, st) && StmtHere(code, s, base, brk, cont)
    requires HeightS(s, base, st.pc) == Some(|st.stack|)
    requires var body := base + ClauseSize(s.init) + TestSize(s.test);
      !(body <= st.pc < body + StmtSize(s.loopBody))
    ensures Guarded(code, st) && InStmt(s, base, brk, cont, Step(code, st), |code|)
  {
    hide CodeAt, Guarded, Step, GenExpr, HeightX, ExprSize, Depth, GenStmt, HeightC, ClauseSize, HeightS, StmtHere;
    hide StmtSize, HasBreak, HasContinue, HasReturn, GenClause, ClauseDepth, ClauseOk;
    ForHeight(s, base);
    ForHere(code, s, base, brk, cont);
    ForStarts(s, base);
    var top := base + ClauseSize(s.init);
    var body := top + TestSize(s.test);
    var next := body + StmtSize(s.loopBody);
    var jmp := next + StepSize(s.step);
    if st.pc < top {
      ForInitStep(code, s, base, brk, cont, st);
    } else if st.pc < body {
      XStart(s.test.value, top);
      PartStep(code, s.test, Jz(U32(jmp + 5)), top, st);
    } else if st.pc < jmp {
      XStart(s.step.value, next);
      PartStep(code, s.step, Pop, next, st);
    } else {
      StepShape(code, st, Jmp(U32(top)));
    }
  }

  lemma ForSize(s: Stmt)
    requires s.For?
    ensures StmtSize(s) == ClauseSize(s.init) + TestSize(s.test) + StmtSize(s.loopBody) + StepSize(s.step) + 5
  {
  }

  // ----- whole programs -----

  /** Where a running compiled program can be. */
  ghost predicate OnTrack(ss: Stmts, t: State) {
    t.status == Running && |t.vars| == MAX_VARS &&
    (HeightP(ss, t.pc) == Some(|t.stack|) || (AnyReturn(ss) && t.stack == [] && t.pc == ProgramSize(ss)))
  }

  lemma {:induction false} ProgramStep(ss: Stmts, code: seq<byte>, st: State)
    requires Supported(ss) && AllEncodable(GenProgram(ss)) && code == Encode(GenProgram(ss))
    requires OnTrack(ss, st) && st.pc < |code|
    ensures Guarded(code, st) && HeightP(ss, st.pc) == Some(|st.stack|)
    ensures var t := Step(code, st);
      t.status == Halted || OnTrack(ss, t)
  {
    hide CodeAt, Guarded, Step, GenStmts, Encode, HeightL, StmtsSize, AnyReturn, ListJumpsToEnd;
    hide AllPlainSteps, StmtsDepth, StmtsOk, AnyBreak, AnyContinue, AllEncodable;
    ProgramCode(ss, code);
    StartL(ss, 0);
    BoundsL(ss, 0);
    if st.pc < StmtsSize(ss) {
      ListStep(code, ss, 0, 0, 0, st);
    } else if st.pc == StmtsSize(ss) {
      StepShape(code, st, PushConst(0));
    } else {
      StepShape(code, st, Ret);
    }
  }

  /** In every run of a compiled program the stack height is the one the
      offset prescribes, no interpreter guard is ever taken, and nothing
      undefined happens. */
  lemma {:induction false} StackDiscipline(ss: Stmts, k: nat)
    requires Supported(ss)
    ensures AllEncodable(GenProgram(ss))
    ensures var code := Encode(GenProgram(ss));
      var t := Run(code, Initial(), k);
      t.status == Halted ||
      (t.status == Running &&
        ((HeightP(ss, t.pc) == Some(|t.stack|) && Guarded(code, t)) ||
         (AnyReturn(ss) && t.pc == |code| && t.stack == [])))
    decreases k
  {
    GenEncodable(ss);
    hide Guarded, Step, Run, GenProgram, HeightL, Encode, StmtsSize, AnyReturn, ListJumpsToEnd;
    hide AllPlainSteps, StmtsDepth, StmtsOk, AnyBreak, AnyContinue, AllEncodable, GenStmts;
    var code := Encode(GenProgram(ss));
    ProgramCode(ss, code);
    TrackedAfter(ss, code, k);
    var t := Run(code, Initial(), k);
    if t.status == Running && t.pc < |code| {
      ProgramStep(ss, code, t);
    }
    BoundsL(ss, 0);
  }

  lemma RunSucc(code: seq<byte>, st: State, k: nat)
    requires |st.vars| == MAX_VARS
    ensures Run(code, st, k + 1) == Step(code, Run(code, st, k))
  {
    hide Step;
    RunAdd(code, st, k, 1);
    var t := Run(code, st, k);
    assert Run(code, t, 1) == Run(code, Step(code, t), 0);
  }

  lemma HaltedStays(code: seq<byte>, t: State)
    requires |t.vars| == MAX_VARS && t.status == Halted
    ensures Step(code, t) == t
  {
  }

  lemma EndHalts(code: seq<byte>, t: State)
    requires |t.vars| == MAX_VARS && t.status == Running && t.pc >= |code|
    ensures Step(code, t).status == Halted
  {
  }

  lemma {:induction false} TrackedAfter(ss: Stmts, code: seq<byte>, k: nat)
    requires Supported(ss) && AllEncodable(GenProgram(ss)) && code == Encode(GenProgram(ss))
    ensures var t := Run(code, Initial(), k);
      t.status == Halted || OnTrack(ss, t)
    decreases k
  {
    hide Guarded, GenProgram, HeightL, Encode, Step, Run, StmtsSize, AnyReturn, ListJumpsToEnd;
    hide AllPlainSteps, StmtsDepth, StmtsOk, AnyBreak, AnyContinue, AllEncodable, GenStmts;
    ProgramCode(ss, code);
    StartL(ss, 0);
    if k == 0 {
      RunZero(code, Initial());
    } else {
      TrackedAfter(ss, code, k - 1);
      var t := Run(code, Initial(), k - 1);
      RunSucc(code, Initial(), k - 1);
      if t.status == Halted {
        HaltedStays(code, t);
      } else if t.pc < |code| {
        ProgramStep(ss, code, t);
      } else {
        EndHalts(code, t);
      }
    }
  }

  /** Every jump operand in the emitted code is an offset with a height, or,
      for a plain jump, the end of the code, whichever way the run goes. */
  lemma {:induction false} JumpsKeepHeights(ss: Stmts, pc: nat)
    requires Supported(ss)
    requires HeightP(ss, pc).Some?
    ensures AllEncodable(GenProgram(ss))
    ensures var code := Encode(GenProgram(ss));
      pc < |code| && Fetch(code, pc).Ins? &&
      var i := Fetch(code, pc).i;
      i.Jmp? || i.Jz? ==> HeightP(ss, i.target).Some? || (i.Jmp? && i.target == |code|)
  {
    GenEncodable(ss);
    hide GenProgram, HeightL, Encode, ReadU32, HeightP, Fetch, Supported;
    var code := Encode(GenProgram(ss));
    var st := State(pc, seq(HeightP(ss, pc).value, _ => 0), Initial().vars, [], Running);
    HeightInside(ss, code, pc);
    ProgramStep(ss, code, st);
    var i := Fetch(code, pc).i;
    if (i.Jmp? || i.Jz?) && i.target < |code| {
      TakenJump(code, st, i);
    }
  }

  lemma HeightInside(ss: Stmts, code: seq<byte>, pc: nat)
    requires Supported(ss) && HeightP(ss, pc).Some?
    requires AllEncodable(GenProgram(ss)) && code == Encode(GenProgram(ss))
    ensures pc < |code| == ProgramSize(ss)
  {
    hide GenProgram, HeightL, Encode, StmtsSize;
    ProgramCode(ss, code);
    BoundsL(ss, 0);
  }

  lemma TakenJump(code: seq<byte>, st: State, i: Instr)
    requires st.status == Running && |st.vars| == MAX_VARS && st.pc < |code|
    requires Fetch(code, st.pc).Ins? && Fetch(code, st.pc).i == i && (i.Jmp? || i.Jz?) && i.target < |code|
    requires i.Jz? ==> Top(st.stack) == 0
    ensures Step(code, st).pc == i.target && Step(code, st).status == Running
  {
    hide Fetch;
  }
}
