/** The accepted C subset as syntax trees with variable slots already resolved,
    and its meaning as a direct interpreter. */
module Source {
  import opened Basics
  import opened Bytecode
  import opened Vm

  datatype Expr =
    | Num(v: i32)
    | Var(x: byte)
    | PostInc(x: byte)
    | PostDec(x: byte)
    | PreInc(x: byte)
    | PreDec(x: byte)
    | LogNot(e: Expr)
    | Minus(e: Expr)
    | Bin(op: BinOp, l: Expr, r: Expr)
    | AndAlso(l: Expr, r: Expr)
    | OrElse(l: Expr, r: Expr)
    | Assign(x: byte, e: Expr)
    | Update(op: BinOp, x: byte, e: Expr)      // x op= e

  datatype Decls = NoDecls | Declare(x: byte, init: Option<Expr>, rest: Decls)

  datatype Clause = NoClause | DeclClause(ds: Decls) | ExprClause(e: Expr)

  datatype Stmts = Nil | Cons(head: Stmt, tail: Stmts)

  datatype Stmt =
    | Empty
    | Block(body: Stmts)
    | DeclStmt(ds: Decls)
    | If(cond: Expr, thn: Stmt)
    | IfElse(cond: Expr, thn: Stmt, els: Stmt)
    | DoWhile(loopBody: Stmt, cond: Expr)
    | While(cond: Expr, loopBody: Stmt)
    | For(init: Clause, test: Option<Expr>, step: Option<Expr>, loopBody: Stmt)
    | PutsStmt(text: seq<byte>)
    | PutcStmt(e: Expr)
    | SleepStmt(e: Expr)
    | Break
    | Continue
    | Return(e: Expr)
    | ExprStmt(e: Expr)

  // ----- well-formedness: what the front end guarantees -----

  predicate ExprOk(e: Expr) {
    match e
    case Num(_) => true
    case Var(x) => x < MAX_VARS
    case PostInc(x) => x < MAX_VARS
    case PostDec(x) => x < MAX_VARS
    case PreInc(x) => x < MAX_VARS
    case PreDec(x) => x < MAX_VARS
    case LogNot(a) => ExprOk(a)
    case Minus(a) => ExprOk(a)
    case Bin(_, l, r) => ExprOk(l) && ExprOk(r)
    case AndAlso(l, r) => ExprOk(l) && ExprOk(r)
    case OrElse(l, r) => ExprOk(l) && ExprOk(r)
    case Assign(x, a) => x < MAX_VARS && ExprOk(a)
    case Update(op, x, a) => x < MAX_VARS && ExprOk(a)
  }

  predicate OptOk(e: Option<Expr>) {
    e.Some? ==> ExprOk(e.value)
  }

  predicate DeclsOk(ds: Decls) {
    ds.Declare? ==> ds.x < MAX_VARS && OptOk(ds.init) && DeclsOk(ds.rest)
  }

  predicate ClauseOk(c: Clause) {
    match c
    case NoClause => true
    case DeclClause(ds) => DeclsOk(ds)
    case ExprClause(e) => ExprOk(e)
  }

  /** Strings come from a 256-byte buffer and contain no terminator. */
  predicate TextOk(text: seq<byte>) {
    |text| <= 255 && 0 !in text
  }

  predicate StmtOk(s: Stmt) {
    match s
    case Empty => true
    case Block(ss) => StmtsOk(ss)
    case DeclStmt(ds) => DeclsOk(ds)
    case If(c, t) => ExprOk(c) && StmtOk(t)
    case IfElse(c, t, e) => ExprOk(c) && StmtOk(t) && StmtOk(e)
    case DoWhile(b, c) => StmtOk(b) && ExprOk(c)
    case While(c, b) => ExprOk(c) && StmtOk(b)
    case For(init, test, step, b) => ClauseOk(init) && OptOk(test) && OptOk(step) && StmtOk(b)
    case PutsStmt(text) => TextOk(text)
    case PutcStmt(e) => ExprOk(e)
    case SleepStmt(e) => ExprOk(e)
    case Break => true
    case Continue => true
    case Return(e) => ExprOk(e)
    case ExprStmt(e) => ExprOk(e)
  }

  predicate StmtsOk(ss: Stmts) {
    ss.Cons? ==> StmtOk(ss.head) && StmtsOk(ss.tail)
  }

  // ----- meaning -----

  type Vars = s: seq<i32> | |s| == MAX_VARS witness seq(MAX_VARS, _ => 0)

  /** Value of an expression and the variables after it; operands are
      evaluated left to right and `x op= e` reads x first. */
  function Eval(e: Expr, vars: Vars): (i32, Vars)
    requires ExprOk(e)
  {
    match e
    case Num(v) => (v, vars)
    case Var(x) => (vars[x], vars)
    case PostInc(x) => (vars[x], vars[x := Apply(Add, vars[x], 1)])
    case PostDec(x) => (vars[x], vars[x := Apply(Sub, vars[x], 1)])
    case PreInc(x) => var v := Apply(Add, vars[x], 1); (v, vars[x := v])
    case PreDec(x) => var v := Apply(Sub, vars[x], 1); (v, vars[x := v])
    case LogNot(a) => var (v, vars1) := Eval(a, vars); (Bool(v == 0), vars1)
    case Minus(a) => var (v, vars1) := Eval(a, vars); (S32(0 - v), vars1)
    case Bin(op, l, r) =>
      var (v, vars1) := Eval(l, vars);
      var (w, vars2) := Eval(r, vars1);
      (Apply(op, v, w), vars2)
    case AndAlso(l, r) =>
      var (v, vars1) := Eval(l, vars);
      if v == 0 then (0, vars1)
      else
        var (w, vars2) := Eval(r, vars1);
        (Bool(w != 0), vars2)
    case OrElse(l, r) =>
      var (v, vars1) := Eval(l, vars);
      if v != 0 then (1, vars1)
      else
        var (w, vars2) := Eval(r, vars1);
        (Bool(w != 0), vars2)
    case Assign(x, a) =>
      var (v, vars1) := Eval(a, vars);
      (v, vars1[x := v])
    case Update(op, x, a) =>
      var (w, vars1) := Eval(a, vars);
      var v := Apply(op, vars[x], w);
      (v, vars1[x := v])
  }

  datatype Store = Store(vars: Vars, trace: seq<Event>)

  datatype Outcome = Normal | Broke | Continued | Returned | OutOfFuel

  /** A body ending this way leaves the loop around it. */
  predicate Leaves(o: Outcome) {
    o == Broke || o == Returned || o == OutOfFuel
  }

  function AfterLoop(o: Outcome): Outcome {
    if o == Broke then Normal else o
  }

  function ExecDecls(ds: Decls, vars: Vars): Vars
    requires DeclsOk(ds)
  {
    match ds
    case NoDecls => vars
    case Declare(x, None, rest) => ExecDecls(rest, vars)
    case Declare(x, Some(e), rest) =>
      var (v, vars1) := Eval(e, vars);
      ExecDecls(rest, vars1[x := v])
  }

  function ExecClause(c: Clause, vars: Vars): Vars
    requires ClauseOk(c)
  {
    match c
    case NoClause => vars
    case DeclClause(ds) => ExecDecls(ds, vars)
    case ExprClause(e) => Eval(e, vars).1
  }

  function ExecStep(step: Option<Expr>, vars: Vars): Vars
    requires OptOk(step)
  {
    if step.None? then vars else Eval(step.value, vars).1
  }

  /** Statement execution; `fuel` bounds the length of every chain of loop
      iterations. */
  function Exec(s: Stmt, st: Store, fuel: nat): (Outcome, Store)
    requires StmtOk(s)
    decreases fuel, s, 0
  {
    match s
    case Empty => (Normal, st)
    case Block(ss) => ExecAll(ss, st, fuel)
    case DeclStmt(ds) => (Normal, st.(vars := ExecDecls(ds, st.vars)))
    case If(c, t) =>
      var (v, vars1) := Eval(c, st.vars);
      if v != 0 then Exec(t, st.(vars := vars1), fuel) else (Normal, st.(vars := vars1))
    case IfElse(c, t, e) =>
      var (v, vars1) := Eval(c, st.vars);
      if v != 0 then Exec(t, st.(vars := vars1), fuel) else Exec(e, st.(vars := vars1), fuel)
    case DoWhile(b, c) =>
      if fuel == 0 then (OutOfFuel, st)
      else
        var (o, st1) := Exec(b, st, fuel);
        if Leaves(o) then (AfterLoop(o), st1)
        else
          var (v, vars2) := Eval(c, st1.vars);
          var st2 := st1.(vars := vars2);
          if v == 0 then (Normal, st2) else Exec(s, st2, fuel - 1)
    case While(c, b) => ExecLoop(Some(c), None, b, st, fuel)
    case For(init, test, step, b) =>
      ExecLoop(test, step, b, st.(vars := ExecClause(init, st.vars)), fuel)
    case PutsStmt(text) => (Normal, st.(trace := st.trace + [PutString(text)]))
    case PutcStmt(e) =>
      var (v, vars1) := Eval(e, st.vars);
      (Normal, Store(vars1, st.trace + [PutChar(CharArg(v))]))
    case SleepStmt(e) =>
      var (v, vars1) := Eval(e, st.vars);
      (Normal, Store(vars1, st.trace + [SleepMs(SleepArg(v))]))
    case Break => (Broke, st)
    case Continue => (Continued, st)
    case Return(e) => (Returned, st.(vars := Eval(e, st.vars).1))
    case ExprStmt(e) => (Normal, st.(vars := Eval(e, st.vars).1))
  }

  function ExecAll(ss: Stmts, st: Store, fuel: nat): (Outcome, Store)
    requires StmtsOk(ss)
    decreases fuel, ss, 0
  {
    match ss
    case Nil => (Normal, st)
    case Cons(s, rest) =>
      var (o, st1) := Exec(s, st, fuel);
      if o == Normal then ExecAll(rest, st1, fuel) else (o, st1)
  }

  /** A loop tested before each iteration; no test means always true. */
  function ExecLoop(test: Option<Expr>, step: Option<Expr>, b: Stmt, st: Store, fuel: nat): (Outcome, Store)
    requires OptOk(test) && OptOk(step) && StmtOk(b)
    decreases fuel, b, 1
  {
    if fuel == 0 then (OutOfFuel, st)
    else
      var (v, vars1) := if test.None? then (1, st.vars) else Eval(test.value, st.vars);
      if v == 0 then (Normal, st.(vars := vars1))
      else
        var (o, st1) := Exec(b, st.(vars := vars1), fuel);
        if Leaves(o) then (AfterLoop(o), st1)
        else ExecLoop(test, step, b, st1.(vars := ExecStep(step, st1.vars)), fuel - 1)
  }
}
