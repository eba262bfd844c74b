/** The virtual machine on compiled statements and whole programs: compiler
    correctness for terminating and for diverging programs. */
module SimulateStmt {
  import opened Basics
  import opened Bytecode
  import opened Vm
  import opened Source
  import opened CodeGen
  import opened SimulateExpr

  // ----- static conditions -----

  function OptDepth(e: Option<Expr>): nat {
    if e.None? then 0 else Depth(e.value)
  }

  function DeclsDepth(ds: Decls): nat {
    match ds
    case NoDecls => 0
    case Declare(_, init, rest) => Max(OptDepth(init), DeclsDepth(rest))
  }

  function ClauseDepth(c: Clause): nat {
    match c
    case NoClause => 0
    case DeclClause(ds) => DeclsDepth(ds)
    case ExprClause(e) => Depth(e)
  }

  /** The largest operand stack any part of a statement needs. */
  function StmtDepth(s: Stmt): nat {
    match s
    case Block(ss) => StmtsDepth(ss)
    case DeclStmt(ds) => DeclsDepth(ds)
    case If(c, t) => Max(Depth(c), StmtDepth(t))
    case IfElse(c, t, e) => Max(Depth(c), Max(StmtDepth(t), StmtDepth(e)))
    case DoWhile(b, c) => Max(StmtDepth(b), Depth(c))
    case While(c, b) => Max(Depth(c), StmtDepth(b))
    case For(init, test, step, b) =>
      Max(Max(ClauseDepth(init), OptDepth(test)), Max(OptDepth(step), StmtDepth(b)))
    case PutcStmt(e) => Depth(e)
    case SleepStmt(e) => Depth(e)
    case Return(e) => Depth(e)
    case ExprStmt(e) => Depth(e)
    case _ => 0
  }

  function StmtsDepth(ss: Stmts): nat {
    match ss
    case Nil => 0
    case Cons(s, rest) => Max(StmtDepth(s), StmtsDepth(rest))
  }

  predicate PlainStep(step: Option<Expr>) {
    step.Some? ==> !HasLogic(step.value)
  }

  /** No step clause of a `for` contains `&&` or `||`. */
  predicate PlainSteps(s: Stmt) {
    match s
    case Block(ss) => AllPlainSteps(ss)
    case If(_, t) => PlainSteps(t)
    case IfElse(_, t, e) => PlainSteps(t) && PlainSteps(e)
    case DoWhile(b, _) => PlainSteps(b)
    case While(_, b) => PlainSteps(b)
    case For(_, _, step, b) => PlainStep(step) && PlainSteps(b)
    case _ => true
  }

  predicate AllPlainSteps(ss: Stmts) {
    ss.Cons? ==> PlainSteps(ss.head) && AllPlainSteps(ss.tail)
  }

  /** A break (continue) that belongs to a loop outside `s`. */
  predicate HasBreak(s: Stmt) {
    match s
    case Break => true
    case Block(ss) => AnyBreak(ss)
    case If(_, t) => HasBreak(t)
    case IfElse(_, t, e) => HasBreak(t) || HasBreak(e)
    case _ => false
  }

  predicate AnyBreak(ss: Stmts) {
    ss.Cons? && (HasBreak(ss.head) || AnyBreak(ss.tail))
  }

  predicate HasContinue(s: Stmt) {
    match s
    case Continue => true
    case Block(ss) => AnyContinue(ss)
    case If(_, t) => HasContinue(t)
    case IfElse(_, t, e) => HasContinue(t) || HasContinue(e)
    case _ => false
  }

  predicate AnyContinue(ss: Stmts) {
    ss.Cons? && (HasContinue(ss.head) || AnyContinue(ss.tail))
  }

  predicate HasReturn(s: Stmt) {
    match s
    case Return(_) => true
    case Block(ss) => AnyReturn(ss)
    case If(_, t) => HasReturn(t)
    case IfElse(_, t, e) => HasReturn(t) || HasReturn(e)
    case DoWhile(b, _) => HasReturn(b)
    case While(_, b) => HasReturn(b)
    case For(_, _, _, b) => HasReturn(b)
    case _ => false
  }

  predicate AnyReturn(ss: Stmts) {
    ss.Cons? && (HasReturn(ss.head) || AnyReturn(ss.tail))
  }

  /** Whether the code of `s` contains a jump to the offset just past it;
      without `plain`, only conditional jumps count. */
  predicate JumpsToEnd(s: Stmt, plain: bool) {
    match s
    case Block(ss) => ListJumpsToEnd(ss, plain)
    case If(_, _) => true
    case IfElse(_, _, e) => plain || StmtSize(e) == 0 || JumpsToEnd(e, plain)
    case DoWhile(_, _) => true
    case While(_, _) => true
    case For(_, test, _, b) => test.Some? || (plain && HasBreak(b))
    case _ => false
  }

  predicate ListJumpsToEnd(ss: Stmts, plain: bool) {
    ss.Cons? && (ListJumpsToEnd(ss.tail, plain) || (StmtsSize(ss.tail) == 0 && JumpsToEnd(ss.head, plain)))
  }

  // ----- where a statement leaves the machine -----

  ghost predicate Clear(code: seq<byte>, st: State) {
    st.status == Running && |st.vars| == MAX_VARS && st.stack == [] && |code| < 0x1_0000_0000
  }

  ghost function StoreOf(st: State): Store
    requires |st.vars| == MAX_VARS
  {
    Store(st.vars, st.trace)
  }

  ghost function At(pc: nat, s: Store): State {
    State(pc, [], s.vars, s.trace, Running)
  }

  ghost predicate Stopped(t: State, s: Store) {
    t.status == Halted && t.vars == s.vars && t.trace == s.trace
  }

  /** Control is at `pc`, or a jump to the end of the code has stopped the
      machine there, as falling off the end does. */
  ghost predicate Arrives(t: State, pc: nat, s: Store, size: nat) {
    t == At(pc, s) || (pc == size && Stopped(t, s))
  }

  /** `t` is where the machine is after a statement ended with `r`: past the
      statement, at a jump target, halted, or still running having printed
      what the interpreter printed. */
  ghost predicate Lands(t: State, r: (Outcome, Store), end: nat, brk: u32, cont: u32, size: nat) {
    match r.0
    case Normal => Arrives(t, end, r.1, size)
    case Broke => Arrives(t, brk, r.1, size)
    case Continued => t == At(cont, r.1)
    case Returned => Stopped(t, r.1)
    case OutOfFuel => t.status == Running && t.trace == r.1.trace
  }

  /** The targets `s` may jump to are inside the code, or are its end where
      the jump is not conditional. */
  ghost predicate TargetsIn(code: seq<byte>, s: Stmt, base: nat, brk: u32, cont: u32) {
    base + StmtSize(s) <= |code| &&
    (JumpsToEnd(s, false) ==> base + StmtSize(s) < |code|) &&
    (HasBreak(s) ==> brk <= |code|) &&
    (HasContinue(s) ==> cont < |code|)
  }

  ghost predicate ListTargetsIn(code: seq<byte>, ss: Stmts, base: nat, brk: u32, cont: u32) {
    base + StmtsSize(ss) <= |code| &&
    (ListJumpsToEnd(ss, false) ==> base + StmtsSize(ss) < |code|) &&
    (AnyBreak(ss) ==> brk <= |code|) &&
    (AnyContinue(ss) ==> cont < |code|)
  }

  // ----- instructions that end statements -----

  lemma ThenPop(code: seq<byte>, st: State, a: nat, mid: State, below: seq<i32>, v: i32)
    requires |st.vars| == MAX_VARS
    requires Run(code, st, a) == mid && mid.status == Running
    requires mid.stack == below + [v]
    requires CodeAt(code, mid.pc, [Pop])
    ensures Run(code, st, a + 1) == mid.(pc := mid.pc + 1, stack := below)
  {
    hide CodeAt, Run;
    TopDrop(below, v);
    Then(code, st, a, mid, Pop);
  }

  lemma ThenRet(code: seq<byte>, st: State, a: nat, mid: State)
    requires |st.vars| == MAX_VARS
    requires Run(code, st, a) == mid && mid.status == Running
    requires CodeAt(code, mid.pc, [Ret])
    ensures var t := Run(code, st, a + 1);
      t.status == Halted && t.vars == mid.vars && t.trace == mid.trace
  {
    hide CodeAt, Run;
    Then(code, st, a, mid, Ret);
  }

  /** A jump to an instruction or to the end of the code. */
  lemma ThenLeave(code: seq<byte>, st: State, a: nat, s: Store, pc: nat, t: nat)
    requires |st.vars| == MAX_VARS
    requires Run(code, st, a) == At(pc, s)
    requires t <= |code| < 0x1_0000_0000
    requires CodeAt(code, pc, [Jmp(U32(t))])
    ensures Arrives(Run(code, st, a + 1), t, s, |code|)
  {
    hide CodeAt, Run;
    Then(code, st, a, At(pc, s), Jmp(U32(t)));
  }

  lemma ThenCall(code: seq<byte>, st: State, a: nat, mid: State, below: seq<i32>, v: i32, i: Instr)
    requires |st.vars| == MAX_VARS
    requires Run(code, st, a) == mid && mid.status == Running
    requires mid.stack == below + [v] && (i == Putc || i == Sleep)
    requires CodeAt(code, mid.pc, [i])
    ensures Run(code, st, a + 1) == mid.(pc := mid.pc + 1, stack := below,
      trace := mid.trace + [if i == Putc then PutChar(CharArg(v)) else SleepMs(SleepArg(v))])
  {
    hide CodeAt, Run;
    TopDrop(below, v);
    Then(code, st, a, mid, i);
  }

  lemma {:induction false} CStringWhole(text: seq<byte>)
    requires 0 !in text
    ensures CString(text + [0]) == text
  {
    if text != [] {
      assert (text + [0])[1..] == text[1..] + [0];
      CStringWhole(text[1..]);
    }
  }

  lemma ThenPuts(code: seq<byte>, st: State, text: seq<byte>)
    requires Clear(code, st) && TextOk(text)
    requires CodeAt(code, st.pc, [Puts(text + [0])])
    ensures Run(code, st, 1) == st.(pc := st.pc + |text| + 4, trace := st.trace + [PutString(text)])
  {
    hide CodeAt, Run;
    CStringWhole(text);
    RunZero(code, st);
    Then(code, st, 0, st, Puts(text + [0]));
    assert (text + [0])[|text|] == 0;
  }

  // ----- expressions at statement level -----

  /** An expression followed by the instruction that consumes its value. */
  lemma SimExprThen(code: seq<byte>, e: Expr, i: Instr, st: State) returns (k: nat)
    requires Clear(code, st) && ExprOk(e) && Depth(e) <= STACK_MAX
    requires i == Pop || i == Putc || i == Sleep || i == Ret
    requires CodeAt(code, st.pc, GenExpr(e, st.pc) + [i])
    requires st.pc + ExprSize(e) + 1 <= |code|
    ensures k >= 1
    ensures
      var (v, vars1) := Eval(e, st.vars);
      var t := Run(code, st, k);
      match i
      case Pop => t == At(st.pc + ExprSize(e) + 1, Store(vars1, st.trace))
      case Putc => t == At(st.pc + ExprSize(e) + 1, Store(vars1, st.trace + [PutChar(CharArg(v))]))
      case Sleep => t == At(st.pc + ExprSize(e) + 1, Store(vars1, st.trace + [SleepMs(SleepArg(v))]))
      case _ => t.status == Halted && t.vars == vars1 && t.trace == st.trace
  {
    hide CodeAt, Run, Perform, GenExpr, Eval;
    CodeAtAppend(code, st.pc, GenExpr(e, st.pc), [i]);
    GenExprSize(e, st.pc);
    k := SimExpr(code, e, st);
    var r := Eval(e, st.vars);
    var mid := After(st, ExprSize(e), r);
    if i == Pop {
      ThenPop(code, st, k, mid, [], r.0);
    } else if i == Ret {
      ThenRet(code, st, k, mid);
    } else {
      ThenCall(code, st, k, mid, [], r.0, i);
    }
    k := k + 1;
  }

  /** A condition followed by its conditional jump. */
  lemma SimTest(code: seq<byte>, e: Expr, t: nat, st: State) returns (k: nat)
    requires Clear(code, st) && ExprOk(e) && Depth(e) <= STACK_MAX
    requires CodeAt(code, st.pc, GenExpr(e, st.pc)) && CodeAt(code, st.pc + ExprSize(e), [Jz(U32(t))])
    requires st.pc + ExprSize(e) + 5 <= |code| && t < |code|
    ensures k >= 1
    ensures
      var (v, vars1) := Eval(e, st.vars);
      Run(code, st, k) == At(if v == 0 then t else st.pc + ExprSize(e) + 5, Store(vars1, st.trace))
  {
    hide CodeAt, Run, Perform, GenExpr, Eval;
    k := SimExpr(code, e, st);
    var r := Eval(e, st.vars);
    ThenJz(code, st, k, After(st, ExprSize(e), r), [], r.0, t);
    k := k + 1;
  }

  lemma {:induction false} SimDecls(code: seq<byte>, ds: Decls, st: State) returns (k: nat)
    requires Clear(code, st) && DeclsOk(ds) && DeclsDepth(ds) <= STACK_MAX
    requires CodeAt(code, st.pc, GenDecls(ds, st.pc))
    requires st.pc + DeclsSize(ds) <= |code|
    ensures Run(code, st, k) == st.(pc := st.pc + DeclsSize(ds), vars := ExecDecls(ds, st.vars))
    decreases ds
  {
    hide CodeAt, Run, Perform, GenExpr, Eval, ExprSize;
    RunZero(code, st);
    match ds
    case NoDecls => k := 0;
    case Declare(_, None, rest) => k := SimDecls(code, rest, st);
    case Declare(x, Some(e), rest) =>
      var here := st.pc + ExprSize(e);
      CodeAtAppend(code, st.pc, GenExpr(e, st.pc), [StoreVar(x)] + GenDecls(rest, here + 2));
      GenExprSize(e, st.pc);
      CodeAtAppend(code, here, [StoreVar(x)], GenDecls(rest, here + 2));
      SizeOne(StoreVar(x));
      k := SimExpr(code, e, st);
      var r := Eval(e, st.vars);
      ThenStore(code, st, k, After(st, ExprSize(e), r), [], r.0, x);
      var st1 := st.(pc := here + 2, vars := r.1[x := r.0]);
      var k2 := SimDecls(code, rest, st1);
      RunAdd(code, st, k + 1, k2);
      k := k + 1 + k2;
  }

  lemma SimClause(code: seq<byte>, c: Clause, st: State) returns (k: nat)
    requires Clear(code, st) && ClauseOk(c) && ClauseDepth(c) <= STACK_MAX
    requires CodeAt(code, st.pc, GenClause(c, st.pc))
    requires st.pc + ClauseSize(c) <= |code|
    ensures Run(code, st, k) == st.(pc := st.pc + ClauseSize(c), vars := ExecClause(c, st.vars))
  {
    hide CodeAt, Run, Perform, GenExpr, Eval, ExprSize;
    match c
    case NoClause => RunZero(code, st); k := 0;
    case DeclClause(ds) => k := SimDecls(code, ds, st);
    case ExprClause(e) => k := SimExprThen(code, e, Pop, st);
  }

  // ----- statements -----

  ghost predicate Compiled(code: seq<byte>, s: Stmt, st: State, brk: u32, cont: u32) {
    Clear(code, st) && StmtOk(s) && StmtDepth(s) <= STACK_MAX && PlainSteps(s) &&
    CodeAt(code, st.pc, GenStmt(s, st.pc, brk, cont)) &&
    TargetsIn(code, s, st.pc, brk, cont)
  }

  ghost predicate CompiledList(code: seq<byte>, ss: Stmts, st: State, brk: u32, cont: u32) {
    Clear(code, st) && StmtsOk(ss) && StmtsDepth(ss) <= STACK_MAX && AllPlainSteps(ss) &&
    CodeAt(code, st.pc, GenStmts(ss, st.pc, brk, cont)) &&
    ListTargetsIn(code, ss, st.pc, brk, cont)
  }

  /** The result of running `k` steps, for use in the lemmas below. */
  ghost predicate Simulates(code: seq<byte>, st: State, k: nat, r: (Outcome, Store), fuel: nat,
      end: nat, brk: u32, cont: u32)
    requires |st.vars| == MAX_VARS
  {
    Lands(Run(code, st, k), r, end, brk, cont, |code|) && (r.0 == OutOfFuel ==> k >= fuel)
  }

  /** Continue a simulation that reached `mid` in `a` steps. */
  lemma Onward(code: seq<byte>, st: State, a: nat, mid: State, k: nat, r: (Outcome, Store), fuel: nat,
      end: nat, brk: u32, cont: u32)
    requires |st.vars| == MAX_VARS && |mid.vars| == MAX_VARS
    requires Run(code, st, a) == mid
    requires Simulates(code, mid, k, r, fuel, end, brk, cont)
    ensures Simulates(code, st, a + k, r, fuel, end, brk, cont)
  {
    hide Run, Lands;
    RunAdd(code, st, a, k);
  }

  lemma {:induction false} SimStmt(code: seq<byte>, s: Stmt, st: State, brk: u32, cont: u32, fuel: nat) returns (k: nat)
    requires Compiled(code, s, st, brk, cont)
    ensures Simulates(code, st, k, Exec(s, StoreOf(st), fuel), fuel, st.pc + StmtSize(s), brk, cont)
    decreases fuel, s, 2
  {
    hide CodeAt, Run, Perform, GenExpr, Eval, ExprSize, GenStmt, Exec, StmtSize, Compiled, Simulates;
    if s.If? || s.IfElse? {
      k := SimBranch(code, s, st, brk, cont, fuel);
    } else if s.While? {
      k := SimWhile(code, s, st, brk, cont, fuel);
    } else if s.For? {
      k := SimFor(code, s, st, brk, cont, fuel);
    } else if s.DoWhile? {
      k := SimDoWhile(code, s, st, brk, cont, fuel);
    } else if s.Block? {
      k := SimBlock(code, s, st, brk, cont, fuel);
    } else {
      k := SimBasic(code, s, st, brk, cont, fuel);
    }
  }

  lemma {:induction false} SimBlock(code: seq<byte>, s: Stmt, st: State, brk: u32, cont: u32, fuel: nat)
      returns (k: nat)
    requires s.Block? && Compiled(code, s, st, brk, cont)
    ensures Simulates(code, st, k, Exec(s, StoreOf(st), fuel), fuel, st.pc + StmtSize(s), brk, cont)
    decreases fuel, s, 1
  {
    hide CodeAt, Run, Perform, Lands;
    k := SimStmts(code, s.body, st, brk, cont, fuel);
  }

  lemma SimBasic(code: seq<byte>, s: Stmt, st: State, brk: u32, cont: u32, fuel: nat) returns (k: nat)
    requires !s.If? && !s.IfElse? && !s.While? && !s.For? && !s.DoWhile? && !s.Block?
    requires Compiled(code, s, st, brk, cont)
    ensures Simulates(code, st, k, Exec(s, StoreOf(st), fuel), fuel, st.pc + StmtSize(s), brk, cont)
  {
    hide CodeAt, Run, Perform, GenExpr, Eval, ExprSize;
    RunZero(code, st);
    match s
    case Empty => k := 0;
    case DeclStmt(ds) => k := SimDecls(code, ds, st);
    case PutsStmt(text) => ThenPuts(code, st, text); k := 1;
    case PutcStmt(e) => k := SimExprThen(code, e, Putc, st);
    case SleepStmt(e) => k := SimExprThen(code, e, Sleep, st);
    case Return(e) => k := SimExprThen(code, e, Ret, st);
    case ExprStmt(e) => k := SimExprThen(code, e, Pop, st);
    case Break => ThenLeave(code, st, 0, StoreOf(st), st.pc, brk); k := 1;
    case Continue => ThenJmp(code, st, 0, st, cont); k := 1;
  }

  /** What compiles to nothing does nothing. */
  lemma {:induction false} NothingDone(ss: Stmts, s: Store, fuel: nat)
    requires StmtsOk(ss) && StmtsSize(ss) == 0
    ensures ExecAll(ss, s, fuel) == (Normal, s)
    decreases ss
  {
    if ss.Cons? {
      NothingDoneStmt(ss.head, s, fuel);
      NothingDone(ss.tail, s, fuel);
    }
  }

  lemma {:induction false} NothingDoneStmt(st: Stmt, s: Store, fuel: nat)
    requires StmtOk(st) && StmtSize(st) == 0
    ensures Exec(st, s, fuel) == (Normal, s)
    decreases st
  {
    hide Eval;
    match st
    case Block(ss) => NothingDone(ss, s, fuel);
    case DeclStmt(ds) => NothingDeclared(ds, s.vars);
    case _ =>
  }

  lemma {:induction false} NothingDeclared(ds: Decls, vars: Vars)
    requires DeclsOk(ds) && DeclsSize(ds) == 0
    ensures ExecDecls(ds, vars) == vars
    decreases ds
  {
    if ds.Declare? {
      NothingDeclared(ds.rest, vars);
    }
  }

  lemma {:induction false} SimStmts(code: seq<byte>, ss: Stmts, st: State, brk: u32, cont: u32, fuel: nat)
      returns (k: nat)
    requires CompiledList(code, ss, st, brk, cont)
    ensures Simulates(code, st, k, ExecAll(ss, StoreOf(st), fuel), fuel, st.pc + StmtsSize(ss), brk, cont)
    decreases fuel, ss, 0
  {
    hide CodeAt, Run, Perform, GenStmt, Exec, StmtSize, StmtOk, StmtDepth, PlainSteps, HasBreak, HasContinue, JumpsToEnd;
    if ss.Nil? {
      RunZero(code, st);
      k := 0;
    } else {
      var next := st.pc + StmtSize(ss.head);
      CodeAtAppend(code, st.pc, GenStmt(ss.head, st.pc, brk, cont), GenStmts(ss.tail, next, brk, cont));
      GenStmtSize(ss.head, st.pc, brk, cont);
      k := SimStmt(code, ss.head, st, brk, cont, fuel);
      var r := Exec(ss.head, StoreOf(st), fuel);
      if r.0 == Normal && Stopped(Run(code, st, k), r.1) {
        NothingDone(ss.tail, r.1, fuel);
      } else if r.0 == Normal {
        var mid := At(next, r.1);
        var k2 := SimStmts(code, ss.tail, mid, brk, cont, fuel);
        Onward(code, st, k, mid, k2, ExecAll(ss.tail, r.1, fuel), fuel, st.pc + StmtsSize(ss), brk, cont);
        k := k + k2;
      }
    }
  }

  ghost function ElseAt(s: Stmt, base: nat): nat
    requires s.If? || s.IfElse?
  {
    base + ExprSize(s.cond) + 5 + StmtSize(s.thn) + if s.If? then 0 else 5
  }

  lemma BranchLayout(code: seq<byte>, s: Stmt, base: nat, brk: u32, cont: u32)
    requires s.If? || s.IfElse?
    requires CodeAt(code, base, GenStmt(s, base, brk, cont))
    ensures var jz := base + ExprSize(s.cond);
      CodeAt(code, base, GenExpr(s.cond, base)) && CodeAt(code, jz, [Jz(U32(ElseAt(s, base)))]) &&
      CodeAt(code, jz + 5, GenStmt(s.thn, jz + 5, brk, cont)) &&
      (s.IfElse? ==>
        CodeAt(code, ElseAt(s, base) - 5, [Jmp(U32(base + StmtSize(s)))]) &&
        CodeAt(code, ElseAt(s, base), GenStmt(s.els, ElseAt(s, base), brk, cont)))
  {
    hide CodeAt, GenExpr, ExprSize, Size, U32;
    var jz := base + ExprSize(s.cond);
    var body := jz + 5;
    var t := GenStmt(s.thn, body, brk, cont);
    var after := body + StmtSize(s.thn);
    var other := ElseAt(s, base);
    GenExprSize(s.cond, base);
    SizeOne(Jz(U32(other)));
    GenStmtSize(s.thn, body, brk, cont);
    if s.If? {
      CodeAtAppend(code, base, GenExpr(s.cond, base), [Jz(U32(other))] + t);
      CodeAtAppend(code, jz, [Jz(U32(other))], t);
    } else {
      var e := GenStmt(s.els, other, brk, cont);
      var jmp := [Jmp(U32(other + StmtSize(s.els)))];
      CodeAtAppend(code, base, GenExpr(s.cond, base), [Jz(U32(other))] + (t + (jmp + e)));
      CodeAtAppend(code, jz, [Jz(U32(other))], t + (jmp + e));
      CodeAtAppend(code, body, t, jmp + e);
      SizeOne(Jmp(U32(other + StmtSize(s.els))));
      CodeAtAppend(code, after, jmp, e);
    }
  }

  lemma BranchExec(s: Stmt, st: Store, fuel: nat)
    requires (s.If? || s.IfElse?) && StmtOk(s)
    ensures StmtOk(s.thn) && ExprOk(s.cond) && (s.IfElse? ==> StmtOk(s.els))
    ensures var (v, vars1) := Eval(s.cond, st.vars);
      var st1 := st.(vars := vars1);
      Exec(s, st, fuel) ==
        if v != 0 then Exec(s.thn, st1, fuel) else if s.If? then (Normal, st1) else Exec(s.els, st1, fuel)
  {
    hide Eval;
  }

  /** The parts of a compiled conditional are compiled, and leave the machine
      clear for the part that runs next. */
  lemma BranchCompiled(code: seq<byte>, s: Stmt, st: State, brk: u32, cont: u32)
    requires (s.If? || s.IfElse?) && Compiled(code, s, st, brk, cont)
    ensures StmtOk(s) && Clear(code, st) && ExprOk(s.cond) && Depth(s.cond) <= STACK_MAX && ElseAt(s, st.pc) < |code|
    ensures CodeAt(code, st.pc, GenExpr(s.cond, st.pc)) && CodeAt(code, st.pc + ExprSize(s.cond), [Jz(U32(ElseAt(s, st.pc)))])
    ensures st.pc + ExprSize(s.cond) + 5 <= |code|
    ensures var c := Eval(s.cond, st.vars);
      var store := Store(c.1, st.trace);
      Compiled(code, s.thn, At(st.pc + ExprSize(s.cond) + 5, store), brk, cont) &&
      (s.IfElse? ==> Compiled(code, s.els, At(ElseAt(s, st.pc), store), brk, cont))
    ensures var after := st.pc + ExprSize(s.cond) + 5 + StmtSize(s.thn);
      st.pc + StmtSize(s) == (if s.If? then after else after + 5 + StmtSize(s.els)) && st.pc + StmtSize(s) <= |code| &&
      (s.IfElse? ==> CodeAt(code, after, [Jmp(U32(st.pc + StmtSize(s)))]) && after + 5 <= |code|)
  {
    hide CodeAt, GenExpr, Eval, ExprSize, GenStmt, StmtSize, TargetsIn, StmtOk, StmtDepth, PlainSteps;
    BranchLayout(code, s, st.pc, brk, cont);
    BranchTargets(code, s, st.pc, brk, cont);
    BranchParts(s);
  }

  lemma BranchParts(s: Stmt)
    requires (s.If? || s.IfElse?) && StmtOk(s) && StmtDepth(s) <= STACK_MAX && PlainSteps(s)
    ensures ExprOk(s.cond) && Depth(s.cond) <= STACK_MAX
    ensures StmtOk(s.thn) && StmtDepth(s.thn) <= STACK_MAX && PlainSteps(s.thn)
    ensures s.IfElse? ==> StmtOk(s.els) && StmtDepth(s.els) <= STACK_MAX && PlainSteps(s.els)
  {
    hide Depth, ExprOk;
  }

  lemma BranchTargets(code: seq<byte>, s: Stmt, base: nat, brk: u32, cont: u32)
    requires (s.If? || s.IfElse?) && TargetsIn(code, s, base, brk, cont)
    ensures TargetsIn(code, s.thn, base + ExprSize(s.cond) + 5, brk, cont)
    ensures s.IfElse? ==> TargetsIn(code, s.els, ElseAt(s, base), brk, cont)
    ensures var after := base + ExprSize(s.cond) + 5 + StmtSize(s.thn);
      base + StmtSize(s) == (if s.If? then after else after + 5 + StmtSize(s.els)) &&
      ElseAt(s, base) < |code| && base + StmtSize(s) <= |code|
  {
    hide ExprSize;
  }

  lemma {:induction false} SimBranch(code: seq<byte>, s: Stmt, st: State, brk: u32, cont: u32, fuel: nat)
      returns (k: nat)
    requires s.If? || s.IfElse?
    requires Compiled(code, s, st, brk, cont)
    ensures Simulates(code, st, k, Exec(s, StoreOf(st), fuel), fuel, st.pc + StmtSize(s), brk, cont)
    decreases fuel, s, 1
  {
    hide CodeAt, Run, Perform, GenExpr, Eval, ExprSize, Lands, GenStmt, Exec, StmtSize, Simulates, Compiled;
    BranchCompiled(code, s, st, brk, cont);
    BranchExec(s, StoreOf(st), fuel);
    var body := st.pc + ExprSize(s.cond) + 5;
    var after := body + StmtSize(s.thn);
    var end := st.pc + StmtSize(s);
    var k1 := SimTest(code, s.cond, ElseAt(s, st.pc), st);
    var c := Eval(s.cond, st.vars);
    var store := Store(c.1, st.trace);
    if c.0 != 0 {
      k := SimStmt(code, s.thn, At(body, store), brk, cont, fuel);
      var r := Exec(s.thn, store, fuel);
      Onward(code, st, k1, At(body, store), k, r, fuel, after, brk, cont);
      k := k1 + k;
      if s.IfElse? {
        k := SkipElse(code, st, k, r, fuel, after, end, brk, cont);
      }
    } else if s.If? {
      LandsNormal(code, st, k1, store, fuel, end, brk, cont);
      k := k1;
    } else {
      k := SimStmt(code, s.els, At(ElseAt(s, st.pc), store), brk, cont, fuel);
      Onward(code, st, k1, At(ElseAt(s, st.pc), store), k, Exec(s.els, store, fuel), fuel, end, brk, cont);
      k := k1 + k;
    }
  }

  lemma LandsNormal(code: seq<byte>, st: State, k: nat, s: Store, fuel: nat, end: nat, brk: u32, cont: u32)
    requires |st.vars| == MAX_VARS
    requires Run(code, st, k) == At(end, s)
    ensures Simulates(code, st, k, (Normal, s), fuel, end, brk, cont)
  {
    hide Run;
  }

  /** The jump over the else part; it runs only after a normal end. */
  lemma SkipElse(code: seq<byte>, st: State, k0: nat, r: (Outcome, Store), fuel: nat,
      after: nat, end: nat, brk: u32, cont: u32) returns (k: nat)
    requires |st.vars| == MAX_VARS
    requires Simulates(code, st, k0, r, fuel, after, brk, cont)
    requires CodeAt(code, after, [Jmp(U32(end))]) && after < |code| && end <= |code| < 0x1_0000_0000
    ensures Simulates(code, st, k, r, fuel, end, brk, cont)
  {
    hide Run, CodeAt, Perform;
    k := k0;
    if r.0 == Normal {
      ThenLeave(code, st, k0, r.1, after, end);
      k := k0 + 1;
    }
  }

  // ----- loops -----

  /** A loop with a leading test, laid out as `while` and `for` lay it out. */
  ghost predicate LoopAt(code: seq<byte>, test: Option<Expr>, step: Option<Expr>, b: Stmt, top: nat, cont: nat) {
    var body := top + TestSize(test);
    var next := body + StmtSize(b);
    var end := next + StepSize(step) + 5;
    |code| < 0x1_0000_0000 && end <= |code| &&
    (test.Some? ==> end < |code|) &&
    (cont == next || (cont == top && test.Some? && step.None?)) &&
    OptOk(test) && OptOk(step) && StmtOk(b) &&
    OptDepth(test) <= STACK_MAX && OptDepth(step) <= STACK_MAX && StmtDepth(b) <= STACK_MAX &&
    PlainStep(step) && PlainSteps(b) &&
    CodeAt(code, top, GenTest(test, top, end)) &&
    CodeAt(code, body, GenStmt(b, body, U32(end), U32(cont))) &&
    CodeAt(code, next, GenStep(step) + [Jmp(U32(top))])
  }

  ghost function LoopEnd(test: Option<Expr>, step: Option<Expr>, b: Stmt, top: nat): nat {
    top + TestSize(test) + StmtSize(b) + StepSize(step) + 5
  }

  lemma LoopBody(code: seq<byte>, test: Option<Expr>, step: Option<Expr>, b: Stmt, top: nat, c: nat, s: Store)
    requires LoopAt(code, test, step, b, top, c)
    ensures Compiled(code, b, At(top + TestSize(test), s), U32(LoopEnd(test, step, b, top)), U32(c))
  {
    hide CodeAt, GenStmt, StmtSize, HasBreak, HasContinue, JumpsToEnd, PlainSteps, StmtDepth, StmtOk;
  }

  lemma NoFuel(code: seq<byte>, st: State, end: nat, brk: u32, cont: u32)
    requires Clear(code, st)
    ensures Simulates(code, st, 0, (OutOfFuel, StoreOf(st)), 0, end, brk, cont)
  {
    RunZero(code, st);
  }

  lemma {:induction false} SimLoop(code: seq<byte>, test: Option<Expr>, step: Option<Expr>, b: Stmt, st: State,
      c: nat, fuel: nat, brk: u32, cont: u32) returns (k: nat)
    requires Clear(code, st) && LoopAt(code, test, step, b, st.pc, c)
    ensures Simulates(code, st, k, ExecLoop(test, step, b, StoreOf(st), fuel), fuel,
      LoopEnd(test, step, b, st.pc), brk, cont)
    decreases fuel, b, 3
  {
    hide CodeAt, Run, Perform, GenExpr, Eval, ExprSize, GenStmt, StmtSize, Exec, ExecStep, StepSize, GenStep;
    hide Compiled, TestSize, HasBreak, PlainSteps, StmtDepth, Simulates, Lands;
    RunZero(code, st);
    if fuel == 0 {
      k := 0;
      NoFuel(code, st, LoopEnd(test, step, b, st.pc), brk, cont);
    } else {
      var top := st.pc;
      var body := top + TestSize(test);
      var end := LoopEnd(test, step, b, top);
      var k1, v, vars1 := SimOptTest(code, test, end, st);
      var s1 := Store(vars1, st.trace);
      if v == 0 {
        LandsNormal(code, st, k1, s1, fuel, end, brk, cont);
        k := k1;
      } else {
        var r := Exec(b, s1, fuel);
        LoopBody(code, test, step, b, top, c, s1);
        var k2 := SimStmt(code, b, At(body, s1), U32(end), U32(c), fuel);
        Onward(code, st, k1, At(body, s1), k2, r, fuel, body + StmtSize(b), U32(end), U32(c));
        if Leaves(r.0) {
          k := k1 + k2;
          LoopLeft(code, st, k, r, fuel, body + StmtSize(b), U32(end), U32(c), end, brk, cont);
        } else {
          var s2 := r.1.(vars := ExecStep(step, r.1.vars));
          var k3 := SimBack(code, test, step, b, top, c, st, k1, k1 + k2, r, fuel);
          var k4 := SimLoop(code, test, step, b, At(top, s2), c, fuel - 1, brk, cont);
          k := LoopAgain(code, st, k3, At(top, s2), k4, ExecLoop(test, step, b, s2, fuel - 1), fuel, end, brk, cont);
        }
      }
    }
  }

  /** One iteration of at least one step, then the rest with less fuel. */
  lemma LoopAgain(code: seq<byte>, st: State, a: nat, mid: State, b: nat, r: (Outcome, Store), fuel: nat,
      end: nat, brk: u32, cont: u32) returns (k: nat)
    requires |st.vars| == MAX_VARS && |mid.vars| == MAX_VARS && fuel >= 1 && a >= 1
    requires Run(code, st, a) == mid
    requires Simulates(code, mid, b, r, fuel - 1, end, brk, cont)
    ensures Simulates(code, st, k, r, fuel, end, brk, cont)
  {
    hide Run, Lands;
    k := a + b;
    RunAdd(code, st, a, b);
  }

  lemma LoopLeft(code: seq<byte>, st: State, k: nat, r: (Outcome, Store), fuel: nat,
      bodyEnd: nat, b: u32, c: u32, end: nat, brk: u32, cont: u32)
    requires |st.vars| == MAX_VARS && Leaves(r.0) && (r.0 == Broke ==> b == end)
    requires Simulates(code, st, k, r, fuel, bodyEnd, b, c)
    ensures Simulates(code, st, k, (AfterLoop(r.0), r.1), fuel, end, brk, cont)
  {
    hide Run;
  }

  lemma SimOptTest(code: seq<byte>, test: Option<Expr>, end: nat, st: State) returns (k: nat, v: i32, vars1: Vars)
    requires Clear(code, st) && OptOk(test) && OptDepth(test) <= STACK_MAX
    requires CodeAt(code, st.pc, GenTest(test, st.pc, end))
    requires st.pc + TestSize(test) <= |code| && (test.Some? ==> end < |code|)
    ensures (v, vars1) == if test.None? then (1, st.vars) else Eval(test.value, st.vars)
    ensures Run(code, st, k) == At(if v == 0 then end else st.pc + TestSize(test), Store(vars1, st.trace))
    ensures test.Some? ==> k >= 1
  {
    hide CodeAt, Run, Perform, GenExpr, Eval, ExprSize;
    if test.None? {
      RunZero(code, st);
      k, v, vars1 := 0, 1, st.vars;
    } else {
      var e := test.value;
      CodeAtAppend(code, st.pc, GenExpr(e, st.pc), [Jz(U32(end))]);
      GenExprSize(e, st.pc);
      k := SimTest(code, e, end, st);
      v, vars1 := Eval(e, st.vars).0, Eval(e, st.vars).1;
    }
  }

  /** From the end of the body, or from a continue, back to the loop's top. */
  lemma SimBack(code: seq<byte>, test: Option<Expr>, step: Option<Expr>, b: Stmt, top: nat, c: nat,
      st: State, k1: nat, k2: nat, r: (Outcome, Store), fuel: nat) returns (k: nat)
    requires |st.vars| == MAX_VARS && LoopAt(code, test, step, b, top, c)
    requires r.0 == Normal || r.0 == Continued
    requires Simulates(code, st, k2, r, fuel, top + TestSize(test) + StmtSize(b),
      U32(LoopEnd(test, step, b, top)), U32(c))
    requires k1 <= k2 && (test.Some? ==> k1 >= 1)
    ensures k >= 1
    ensures Run(code, st, k) == At(top, r.1.(vars := ExecStep(step, r.1.vars)))
  {
    hide CodeAt, Run, Perform, GenExpr, Eval, ExprSize, GenStmt, StmtSize;
    var next := top + TestSize(test) + StmtSize(b);
    if r.0 == Continued && c != next {
      k := k2;
    } else {
      var at := At(next, r.1);
      assert Run(code, st, k2) == at;
      CodeAtAppend(code, next, GenStep(step), [Jmp(U32(top))]);
      GenStepSize(step);
      k := k2;
      var mid := at.(pc := next + StepSize(step), vars := ExecStep(step, r.1.vars));
      if step.Some? {
        Relocated(step.value, next);
        var k3 := SimExprThen(code, step.value, Pop, at);
        RunAdd(code, st, k2, k3);
        k := k2 + k3;
      }
      ThenJmp(code, st, k, mid, top);
      k := k + 1;
    }
  }

  /** A step clause without short-circuit operators means the same at its
      final place as in the side buffer. */
  lemma Relocated(e: Expr, b: int)
    requires !HasLogic(e)
    ensures GenExpr(e, STEP_BASE) == GenExpr(e, b)
  {
    hide GenExpr;
    if U32(STEP_BASE) != U32(b) {
      Relocatable(e, STEP_BASE, b);
    } else {
      Relocatable(e, STEP_BASE, STEP_BASE + 1);
      Relocatable(e, STEP_BASE + 1, b);
    }
  }

  lemma WhileLayout(code: seq<byte>, s: Stmt, base: nat, brk: u32, cont: u32)
    requires s.While?
    requires CodeAt(code, base, GenStmt(s, base, brk, cont))
    ensures var body := base + ExprSize(s.cond) + 5;
      var next := body + StmtSize(s.loopBody);
      CodeAt(code, base, GenTest(Some(s.cond), base, next + 5)) &&
      CodeAt(code, body, GenStmt(s.loopBody, body, U32(next + 5), U32(base))) &&
      CodeAt(code, next, GenStep(None) + [Jmp(U32(base))])
  {
    hide CodeAt, GenExpr, ExprSize, Size, U32;
    var jz := base + ExprSize(s.cond);
    var body := jz + 5;
    var end := body + StmtSize(s.loopBody) + 5;
    var b := GenStmt(s.loopBody, body, U32(end), U32(base));
    var jmp := [Jmp(U32(base))];
    CodeAtAppend(code, base, GenExpr(s.cond, base), [Jz(U32(end))] + (b + jmp));
    GenExprSize(s.cond, base);
    CodeAtAppend(code, jz, [Jz(U32(end))], b + jmp);
    SizeOne(Jz(U32(end)));
    CodeAtAppend(code, body, b, jmp);
    GenStmtSize(s.loopBody, body, U32(end), U32(base));
    CodeAtAppend(code, base, GenExpr(s.cond, base), [Jz(U32(end))]);
    assert GenStep(None) + jmp == jmp;
  }

  lemma {:induction false} SimWhile(code: seq<byte>, s: Stmt, st: State, brk: u32, cont: u32, fuel: nat)
      returns (k: nat)
    requires s.While? && Compiled(code, s, st, brk, cont)
    ensures Simulates(code, st, k, Exec(s, StoreOf(st), fuel), fuel, st.pc + StmtSize(s), brk, cont)
    decreases fuel, s, 1
  {
    hide CodeAt, Run, Perform, GenExpr, Eval, ExprSize, Lands, GenStmt, GenTest, GenStep;
    WhileLayout(code, s, st.pc, brk, cont);
    k := SimLoop(code, Some(s.cond), None, s.loopBody, st, st.pc, fuel, brk, cont);
  }

  lemma ForLayout(code: seq<byte>, s: Stmt, base: nat, brk: u32, cont: u32)
    requires s.For?
    requires CodeAt(code, base, GenStmt(s, base, brk, cont))
    ensures var top := base + ClauseSize(s.init);
      var body := top + TestSize(s.test);
      var next := body + StmtSize(s.loopBody);
      var end := next + StepSize(s.step) + 5;
      CodeAt(code, base, GenClause(s.init, base)) &&
      CodeAt(code, top, GenTest(s.test, top, end)) &&
      CodeAt(code, body, GenStmt(s.loopBody, body, U32(end), U32(next))) &&
      CodeAt(code, next, GenStep(s.step) + [Jmp(U32(top))])
  {
    hide CodeAt, GenClause, GenTest, GenStep, ClauseSize, TestSize, StepSize, Size, U32;
    var top := base + ClauseSize(s.init);
    var body := top + TestSize(s.test);
    var next := body + StmtSize(s.loopBody);
    var end := next + StepSize(s.step) + 5;
    var b := GenStmt(s.loopBody, body, U32(end), U32(next));
    var back := GenStep(s.step) + [Jmp(U32(top))];
    CodeAtAppend(code, base, GenClause(s.init, base), GenTest(s.test, top, end) + (b + back));
    GenClauseSize(s.init, base);
    CodeAtAppend(code, top, GenTest(s.test, top, end), b + back);
    GenTestSize(s.test, top, end);
    CodeAtAppend(code, body, b, back);
    GenStmtSize(s.loopBody, body, U32(end), U32(next));
  }

  lemma {:induction false} SimFor(code: seq<byte>, s: Stmt, st: State, brk: u32, cont: u32, fuel: nat)
      returns (k: nat)
    requires s.For? && Compiled(code, s, st, brk, cont)
    ensures Simulates(code, st, k, Exec(s, StoreOf(st), fuel), fuel, st.pc + StmtSize(s), brk, cont)
    decreases fuel, s, 1
  {
    hide CodeAt, Run, Perform, GenExpr, Eval, ExprSize, Lands, GenStmt, GenTest, GenStep, GenClause;
    hide ClauseSize, TestSize, StepSize, ExecClause;
    ForLayout(code, s, st.pc, brk, cont);
    var top := st.pc + ClauseSize(s.init);
    var next := top + TestSize(s.test) + StmtSize(s.loopBody);
    var end := next + StepSize(s.step) + 5;
    var k1 := SimClause(code, s.init, st);
    var mid := st.(pc := top, vars := ExecClause(s.init, st.vars));
    var k2 := SimLoop(code, s.test, s.step, s.loopBody, mid, next, fuel, brk, cont);
    Onward(code, st, k1, mid, k2, Exec(s, StoreOf(st), fuel), fuel, end, brk, cont);
    k := k1 + k2;
  }

  lemma DoLayout(code: seq<byte>, s: Stmt, base: nat, brk: u32, cont: u32)
    requires s.DoWhile?
    requires CodeAt(code, base, GenStmt(s, base, brk, cont))
    ensures var test := base + StmtSize(s.loopBody);
      var jz := test + ExprSize(s.cond);
      CodeAt(code, base, GenStmt(s.loopBody, base, U32(jz + 10), U32(test))) &&
      CodeAt(code, test, GenExpr(s.cond, test)) &&
      CodeAt(code, jz, [Jz(U32(jz + 10))]) && CodeAt(code, jz + 5, [Jmp(U32(base))])
  {
    hide CodeAt, GenExpr, ExprSize, Size, U32;
    var test := base + StmtSize(s.loopBody);
    var jz := test + ExprSize(s.cond);
    var b := GenStmt(s.loopBody, base, U32(jz + 10), U32(test));
    var tail := [Jz(U32(jz + 10)), Jmp(U32(base))];
    CodeAtAppend(code, base, b, GenExpr(s.cond, test) + tail);
    GenStmtSize(s.loopBody, base, U32(jz + 10), U32(test));
    CodeAtAppend(code, test, GenExpr(s.cond, test), tail);
    GenExprSize(s.cond, test);
    At2(code, jz, Jz(U32(jz + 10)), Jmp(U32(base)));
  }

  lemma DoSizes(s: Stmt)
    requires s.DoWhile?
    ensures StmtSize(s) == StmtSize(s.loopBody) + ExprSize(s.cond) + 10
    ensures StmtDepth(s) <= STACK_MAX ==> StmtDepth(s.loopBody) <= STACK_MAX && Depth(s.cond) <= STACK_MAX
    ensures PlainSteps(s) ==> PlainSteps(s.loopBody)
  {
    hide ExprSize, Depth;
  }

  lemma {:induction false} SimDoWhile(code: seq<byte>, s: Stmt, st: State, brk: u32, cont: u32, fuel: nat)
      returns (k: nat)
    requires s.DoWhile? && Compiled(code, s, st, brk, cont)
    ensures Simulates(code, st, k, Exec(s, StoreOf(st), fuel), fuel, st.pc + StmtSize(s), brk, cont)
    decreases fuel, s, 1
  {
    hide CodeAt, Run, Perform, GenExpr, Eval, ExprSize, GenStmt, PlainSteps, StmtDepth;
    RunZero(code, st);
    if fuel == 0 {
      k := 0;
    } else {
      DoSizes(s);
      var top := st.pc;
      var test := top + StmtSize(s.loopBody);
      var jz := test + ExprSize(s.cond);
      var end := jz + 10;
      DoLayout(code, s, top, brk, cont);
      var k1 := SimStmt(code, s.loopBody, st, U32(end), U32(test), fuel);
      var r := Exec(s.loopBody, StoreOf(st), fuel);
      if Leaves(r.0) {
        LoopLeft(code, st, k1, r, fuel, test, U32(end), U32(test), end, brk, cont);
        k := k1;
      } else {
        var at := At(test, r.1);
        assert Run(code, st, k1) == at;
        var k2 := SimTest(code, s.cond, end, at);
        RunAdd(code, st, k1, k2);
        var c := Eval(s.cond, r.1.vars);
        var s2 := r.1.(vars := c.1);
        if c.0 == 0 {
          k := k1 + k2;
        } else {
          ThenJmp(code, st, k1 + k2, At(jz + 5, s2), top);
          var again := At(top, s2);
          var k3 := SimStmt(code, s, again, brk, cont, fuel - 1);
          k := LoopAgain(code, st, k1 + k2 + 1, again, k3, Exec(s, s2, fuel - 1), fuel, end, brk, cont);
        }
      }
    }
  }
}
