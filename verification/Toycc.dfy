/** Whole programs: the emitted file, the loader's checks, and compiler
    correctness end to end. */
module Toycc {
  import opened Basics
  import opened Bytecode
  import opened Vm
  import opened Source
  import opened CodeGen
  import opened SimulateExpr
  import opened SimulateStmt

  /** The statements of the function body, then `return 0` when the text
      contains no return at all. */
  function GenProgram(ss: Stmts): seq<Instr> {
    GenStmts(ss, 0, 0, 0) + (if AnyReturn(ss) then [] else [PushConst(0), Ret])
  }

  function ProgramSize(ss: Stmts): nat {
    StmtsSize(ss) + if AnyReturn(ss) then 0 else 6
  }

  const MAGIC: seq<byte> := [0x54, 0x43, 0x43, 0x30]

  /** The program file: magic, instruction count, code. */
  function FileOf(ins: seq<Instr>): seq<byte>
    requires AllEncodable(ins)
  {
    MAGIC + U32Bytes(U32(|ins|)) + Encode(ins)
  }

  /** What the task entry point runs: nothing unless the file is long enough
      and starts with the magic. */
  function Load(file: seq<byte>): Option<seq<byte>> {
    if |file| < 8 || file[..4] != MAGIC then None else Some(file[8..])
  }

  /** The conditions under which compiled code means what the source means.
      `!AnyReturn || !ListJumpsToEnd` says that no conditional jump leads to the
      offset just past the last instruction. */
  predicate Supported(ss: Stmts) {
    StmtsOk(ss) && !AnyBreak(ss) && !AnyContinue(ss) &&
    AllPlainSteps(ss) && StmtsDepth(ss) <= STACK_MAX &&
    (AnyReturn(ss) ==> !ListJumpsToEnd(ss, false)) && ProgramSize(ss) < 0x1_0000_0000
  }

  function InitialStore(): Store {
    Store(Initial().vars, [])
  }

  lemma {:induction false} GenEncodable(ss: Stmts)
    requires StmtsOk(ss)
    ensures AllEncodable(GenProgram(ss))
  {
    EncodableStmts(ss, 0, 0, 0);
  }

  lemma {:induction false} EncodableExpr(e: Expr, b: int)
    ensures AllEncodable(GenExpr(e, b))
  {
    hide GenExpr, U32, ExprSize;
    if Leaf(e) {
      EncodableLeaf(e, b);
    } else if e.AndAlso? || e.OrElse? {
      UnfoldLogic(e, b);
      EncodableExpr(e.l, b);
      EncodableExpr(e.r, RightBase(e, b));
    } else if e.Bin? {
      UnfoldBin(e, b);
      EncodableExpr(e.l, b);
      EncodableExpr(e.r, b + ExprSize(e.l));
    } else if e.Update? {
      UnfoldUpdate(e, b);
      EncodableExpr(e.e, b + 2);
    } else {
      UnfoldUnary(e, b);
      EncodableExpr(e.e, b);
    }
  }

  lemma EncodableLeaf(e: Expr, b: int)
    requires Leaf(e)
    ensures AllEncodable(GenExpr(e, b))
  {
  }

  lemma {:induction false} EncodableDecls(ds: Decls, b: int)
    ensures AllEncodable(GenDecls(ds, b))
  {
    hide GenExpr, U32, ExprSize;
    match ds
    case NoDecls =>
    case Declare(_, None, rest) => EncodableDecls(rest, b);
    case Declare(_, Some(e), rest) =>
      EncodableExpr(e, b);
      EncodableDecls(rest, b + ExprSize(e) + 2);
  }

  lemma {:induction false} EncodableStmt(s: Stmt, b: int, brk: u32, cont: u32)
    requires StmtOk(s)
    ensures AllEncodable(GenStmt(s, b, brk, cont))
    decreases s, 1
  {
    hide GenExpr, U32, ExprSize;
    if s.Block? {
      EncodableStmts(s.body, b, brk, cont);
    } else if s.DeclStmt? {
      EncodableDecls(s.ds, b);
    } else if s.PutcStmt? || s.SleepStmt? || s.Return? || s.ExprStmt? {
      EncodableExpr(s.e, b);
    } else if s.If? || s.IfElse? {
      var body := b + ExprSize(s.cond) + 5;
      EncodableExpr(s.cond, b);
      EncodableStmt(s.thn, body, brk, cont);
      if s.IfElse? {
        EncodableStmt(s.els, body + StmtSize(s.thn) + 5, brk, cont);
      }
    } else if s.While? || s.DoWhile? || s.For? {
      EncodableLoop(s, b, brk, cont);
    }
  }

  lemma Joined(a: seq<Instr>, b: seq<Instr>)
    requires AllEncodable(a) && AllEncodable(b)
    ensures AllEncodable(a + b)
  {
  }

  lemma {:induction false} EncodableLoop(s: Stmt, b: int, brk: u32, cont: u32)
    requires StmtOk(s) && (s.While? || s.DoWhile? || s.For?)
    ensures AllEncodable(GenStmt(s, b, brk, cont))
    decreases s, 0
  {
    hide GenExpr, U32, ExprSize, StmtSize, ClauseSize, StepSize, TestSize;
    if s.While? {
      var body := b + ExprSize(s.cond) + 5;
      EncodableExpr(s.cond, b);
      EncodableStmt(s.loopBody, body, U32(body + StmtSize(s.loopBody) + 5), U32(b));
    } else if s.DoWhile? {
      var test := b + StmtSize(s.loopBody);
      EncodableExpr(s.cond, test);
      EncodableStmt(s.loopBody, b, U32(test + ExprSize(s.cond) + 10), U32(test));
    } else {
      EncodableFor(s, b, brk, cont);
    }
  }

  lemma {:induction false} EncodableFor(s: Stmt, b: int, brk: u32, cont: u32)
    requires StmtOk(s) && s.For?
    ensures AllEncodable(GenStmt(s, b, brk, cont))
    decreases s, 0, 0
  {
    hide GenExpr, U32, ExprSize, StmtSize, ClauseSize, StepSize, TestSize, AllEncodable, GenTest, GenStep, GenClause;
    var top := b + ClauseSize(s.init);
    var body := top + TestSize(s.test);
    var next := body + StmtSize(s.loopBody);
    var end := next + StepSize(s.step) + 5;
    EncodableParts(s.init, s.test, s.step, b, top, end);
    var code := GenStmt(s.loopBody, body, U32(end), U32(next));
    EncodableStmt(s.loopBody, body, U32(end), U32(next));
    JmpEncodable(U32(top));
    Joined(GenStep(s.step), [Jmp(U32(top))]);
    Joined(code, GenStep(s.step) + [Jmp(U32(top))]);
    Joined(GenTest(s.test, top, end), code + (GenStep(s.step) + [Jmp(U32(top))]));
    Joined(GenClause(s.init, b), GenTest(s.test, top, end) + (code + (GenStep(s.step) + [Jmp(U32(top))])));
  }

  lemma JmpEncodable(t: u32)
    ensures AllEncodable([Jmp(t)])
  {
  }

  lemma EncodableParts(init: Clause, test: Option<Expr>, step: Option<Expr>, b: int, top: int, end: int)
    ensures AllEncodable(GenClause(init, b))
    ensures AllEncodable(GenTest(test, top, end))
    ensures AllEncodable(GenStep(step))
  {
    hide GenExpr, U32;
    match init {
      case NoClause =>
      case DeclClause(ds) => EncodableDecls(ds, b);
      case ExprClause(e) => EncodableExpr(e, b);
    }
    if test.Some? { EncodableExpr(test.value, top); }
    if step.Some? { EncodableExpr(step.value, STEP_BASE); }
  }

  lemma {:induction false} EncodableStmts(ss: Stmts, b: int, brk: u32, cont: u32)
    requires StmtsOk(ss)
    ensures AllEncodable(GenStmts(ss, b, brk, cont))
    decreases ss, 0
  {
    hide GenStmt, StmtSize;
    if ss.Cons? {
      EncodableStmt(ss.head, b, brk, cont);
      EncodableStmts(ss.tail, b + StmtSize(ss.head), brk, cont);
    }
  }

  lemma ProgramCode(ss: Stmts, code: seq<byte>)
    requires StmtsOk(ss) && AllEncodable(GenProgram(ss)) && code == Encode(GenProgram(ss))
    ensures |code| == ProgramSize(ss) && CodeAt(code, 0, GenStmts(ss, 0, 0, 0))
    ensures !AnyReturn(ss) ==>
      CodeAt(code, StmtsSize(ss), [PushConst(0)]) && CodeAt(code, StmtsSize(ss) + 5, [Ret])
  {
    hide CodeAt, GenStmts, StmtsSize, AnyReturn, Encode, Size;
    var body := GenStmts(ss, 0, 0, 0);
    var tail := if AnyReturn(ss) then [] else [PushConst(0), Ret];
    GenStmtsSize(ss, 0, 0, 0);
    SizeAppend(body, tail);
    Size2(PushConst(0), Ret);
    SizeNone();
    EncodeSize(GenProgram(ss));
    EncodedCodeAt(code, 0, GenProgram(ss));
    CodeAtAppend(code, 0, body, tail);
    if !AnyReturn(ss) {
      At2(code, StmtsSize(ss), PushConst(0), Ret);
    }
  }

  /** The file's code runs exactly like the source: a program that ends does
      end on the machine, with the same variables and the same calls made, and
      while the interpreter is still inside loops after `fuel` rounds the
      machine is still running after at least `fuel` steps, having made the
      same calls. */
  lemma {:induction false} CompilerCorrect(ss: Stmts, fuel: nat) returns (k: nat)
    requires Supported(ss)
    ensures AllEncodable(GenProgram(ss))
    ensures Load(FileOf(GenProgram(ss))) == Some(Encode(GenProgram(ss)))
    ensures
      var (o, s) := ExecAll(ss, InitialStore(), fuel);
      var t := Run(Encode(GenProgram(ss)), Initial(), k);
      t.trace == s.trace &&
      (if o == OutOfFuel then k >= fuel && t.status == Running
       else t.status == Halted && t.vars == s.vars)
  {
    GenEncodable(ss);
    hide CodeAt, Run, Perform, GenStmts, ExecAll, StmtsSize, Encode, AllEncodable;
    var code := Encode(GenProgram(ss));
    FileLoads(GenProgram(ss));
    ProgramCode(ss, code);
    k := SimStmts(code, ss, Initial(), 0, 0, fuel);
    OutcomeOf(ss, InitialStore(), fuel);
    k := ProgramEnds(ss, code, k, ExecAll(ss, InitialStore(), fuel), fuel);
  }

  lemma FileLoads(ins: seq<Instr>)
    requires AllEncodable(ins)
    ensures Load(FileOf(ins)) == Some(Encode(ins))
  {
    var file := FileOf(ins);
    assert file[..4] == MAGIC && file[8..] == Encode(ins);
  }

  /** From the end of the statements to the halt. */
  lemma ProgramEnds(ss: Stmts, code: seq<byte>, k0: nat, r: (Outcome, Store), fuel: nat) returns (k: nat)
    requires Simulates(code, Initial(), k0, r, fuel, StmtsSize(ss), 0, 0)
    requires r.0 != Broke && r.0 != Continued
    requires |code| == ProgramSize(ss) < 0x1_0000_0000
    requires !AnyReturn(ss) ==>
      CodeAt(code, StmtsSize(ss), [PushConst(0)]) && CodeAt(code, StmtsSize(ss) + 5, [Ret])
    ensures
      var t := Run(code, Initial(), k);
      t.trace == r.1.trace &&
      (if r.0 == OutOfFuel then k >= fuel && t.status == Running
       else t.status == Halted && t.vars == r.1.vars)
  {
    hide CodeAt, Run, Perform, StmtsSize, AnyReturn;
    k := k0;
    if r.0 == Normal && !Stopped(Run(code, Initial(), k), r.1) {
      var at := At(StmtsSize(ss), r.1);
      if AnyReturn(ss) {
        RunAdd(code, Initial(), k, 1);
        OffTheEnd(code, at);
        k := k + 1;
      } else {
        ThenPush(code, Initial(), k, at, PushConst(0), 0);
        ThenRet(code, Initial(), k + 1, at.(pc := at.pc + 5, stack := [0]));
        k := k + 2;
      }
    }
  }

  lemma OffTheEnd(code: seq<byte>, st: State)
    requires |st.vars| == MAX_VARS && st.status == Running && st.pc == |code|
    ensures Run(code, st, 1) == st.(status := Halted)
  {
    assert Run(code, st, 1) == Run(code, Step(code, st), 0);
  }

  /** Breaks and continues are produced only by statements that contain them. */
  lemma {:induction false} OutcomeOf(ss: Stmts, st: Store, fuel: nat)
    requires StmtsOk(ss)
    ensures ExecAll(ss, st, fuel).0 == Broke ==> AnyBreak(ss)
    ensures ExecAll(ss, st, fuel).0 == Continued ==> AnyContinue(ss)
    decreases fuel, ss, 0
  {
    if ss.Cons? {
      OutcomeOfStmt(ss.head, st, fuel);
      OutcomeOf(ss.tail, Exec(ss.head, st, fuel).1, fuel);
    }
  }

  lemma {:induction false} OutcomeOfStmt(s: Stmt, st: Store, fuel: nat)
    requires StmtOk(s)
    ensures Exec(s, st, fuel).0 == Broke ==> HasBreak(s)
    ensures Exec(s, st, fuel).0 == Continued ==> HasContinue(s)
    decreases fuel, s, 1
  {
    hide Eval;
    match s
    case Block(ss) => OutcomeOf(ss, st, fuel);
    case If(c, t) => OutcomeOfStmt(t, st.(vars := Eval(c, st.vars).1), fuel);
    case IfElse(c, t, e) =>
      OutcomeOfStmt(t, st.(vars := Eval(c, st.vars).1), fuel);
      OutcomeOfStmt(e, st.(vars := Eval(c, st.vars).1), fuel);
    case DoWhile(b, c) =>
      if fuel > 0 {
        var st1 := Exec(b, st, fuel).1;
        OutcomeOfStmt(s, st1.(vars := Eval(c, st1.vars).1), fuel - 1);
      }
    case While(c, b) => OutcomeOfLoop(Some(c), None, b, st, fuel);
    case For(init, test, step, b) => OutcomeOfLoop(test, step, b, st.(vars := ExecClause(init, st.vars)), fuel);
    case _ =>
  }

  lemma {:induction false} OutcomeOfLoop(test: Option<Expr>, step: Option<Expr>, b: Stmt, st: Store, fuel: nat)
    requires OptOk(test) && OptOk(step) && StmtOk(b)
    ensures var o := ExecLoop(test, step, b, st, fuel).0; o != Broke && o != Continued
    decreases fuel, b, 0
  {
    hide Eval;
    if fuel > 0 {
      var vars1 := if test.None? then st.vars else Eval(test.value, st.vars).1;
      var st1 := Exec(b, st.(vars := vars1), fuel).1;
      OutcomeOfLoop(test, step, b, st1.(vars := ExecStep(step, st1.vars)), fuel - 1);
    }
  }

  /** The fuel of the source interpreter only decides whether it ends: two runs
      that end agree on variables and output. */
  lemma {:induction false} FuelDoesNotMatter(ss: Stmts, f: nat, g: nat)
    requires Supported(ss)
    requires ExecAll(ss, InitialStore(), f).0 != OutOfFuel && ExecAll(ss, InitialStore(), g).0 != OutOfFuel
    ensures AllEncodable(GenProgram(ss))
    ensures ExecAll(ss, InitialStore(), f).1 == ExecAll(ss, InitialStore(), g).1
  {
    hide Run, Step, Perform, GenProgram, ExecAll, Encode, AllEncodable, StmtsOk, AllPlainSteps, ListJumpsToEnd, AnyReturn;
    GenEncodable(ss);
    var code := Encode(GenProgram(ss));
    var k := CompilerCorrect(ss, f);
    var m := CompilerCorrect(ss, g);
    if k <= m {
      RunAdd(code, Initial(), k, m - k);
      StoppedStays(code, Run(code, Initial(), k), m - k);
    } else {
      RunAdd(code, Initial(), m, k - m);
      StoppedStays(code, Run(code, Initial(), m), k - m);
    }
  }

  /** A run that is over is not still running later, so the two halves of
      `CompilerCorrect` make termination agree: the machine halts if and only
      if the interpreter ends for some fuel. */
  lemma {:induction false} HaltsIffTerminates(ss: Stmts)
    requires Supported(ss)
    ensures AllEncodable(GenProgram(ss))
    ensures (exists k: nat :: Run(Encode(GenProgram(ss)), Initial(), k).status == Halted)
       <==> (exists fuel: nat :: ExecAll(ss, InitialStore(), fuel).0 != OutOfFuel)
  {
    hide Run, Step, Perform, GenProgram, ExecAll, Encode, AllEncodable, StmtsOk, AllPlainSteps, ListJumpsToEnd, AnyReturn;
    GenEncodable(ss);
    var code := Encode(GenProgram(ss));
    if k: nat :| Run(code, Initial(), k).status == Halted {
      var m := CompilerCorrect(ss, k);
      if ExecAll(ss, InitialStore(), k).0 == OutOfFuel {
        RunAdd(code, Initial(), k, m - k);
        StoppedStays(code, Run(code, Initial(), k), m - k);
        assert false;
      }
    }
    if fuel: nat :| ExecAll(ss, InitialStore(), fuel).0 != OutOfFuel {
      var m := CompilerCorrect(ss, fuel);
    }
  }
}
