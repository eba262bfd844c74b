/** Laws of the source language: what its statements and operators mean by one
    another.  Through the correctness of the compiler they hold of compiled
    programs. */
module SourceLaws {
  import opened Basics
  import opened Bytecode
  import opened Vm
  import opened Source
  import opened SimulateStmt
  import opened Toycc

  /** The statements `s` and then `t`. */
  function Then(s: Stmt, t: Stmt): (r: Stmt)
    ensures StmtOk(r) <==> StmtOk(s) && StmtOk(t)
  {
    assert StmtsOk(Cons(t, Nil)) == StmtOk(t);
    Block(Cons(s, Cons(t, Nil)))
  }

  lemma ThenIs(s: Stmt, t: Stmt, st: Store, fuel: nat)
    requires StmtOk(s) && StmtOk(t)
    ensures Exec(Then(s, t), st, fuel) ==
      var (o, st1) := Exec(s, st, fuel); if o == Normal then Exec(t, st1, fuel) else (o, st1)
  {
    var (o, st1) := Exec(s, st, fuel);
    assert ExecAll(Cons(t, Nil), st1, fuel) == Exec(t, st1, fuel);
  }

  // ----- expressions -----

  /** De Morgan's laws, side effects included. */
  lemma DeMorgan(a: Expr, b: Expr, vars: Vars)
    requires ExprOk(a) && ExprOk(b)
    ensures Eval(LogNot(AndAlso(a, b)), vars) == Eval(OrElse(LogNot(a), LogNot(b)), vars)
    ensures Eval(LogNot(OrElse(a, b)), vars) == Eval(AndAlso(LogNot(a), LogNot(b)), vars)
  {
    hide Apply, S32;
    var vars1 := Eval(a, vars).1;
    NotIs(a, vars);
    NotIs(b, vars1);
    NotIs(AndAlso(a, b), vars);
    NotIs(OrElse(a, b), vars);
    LogicUnfolds(a, b, vars);
    LogicUnfolds(LogNot(a), LogNot(b), vars);
    hide Eval;
  }

  lemma NotIs(a: Expr, vars: Vars)
    requires ExprOk(a)
    ensures Eval(LogNot(a), vars) == (if Eval(a, vars).0 == 0 then 1 else 0, Eval(a, vars).1)
  {
  }

  lemma LogicUnfolds(a: Expr, b: Expr, vars: Vars)
    requires ExprOk(a) && ExprOk(b)
    ensures var (v, vars1) := Eval(a, vars);
      var (w, vars2) := Eval(b, vars1);
      Eval(AndAlso(a, b), vars) == (if v == 0 then (0, vars1) else (Bool(w != 0), vars2)) &&
      Eval(OrElse(a, b), vars) == (if v != 0 then (1, vars1) else (Bool(w != 0), vars2))
  {
  }

  /** The short-circuit operators are nested conditionals. */
  lemma LogicIs(a: Expr, b: Expr, t: Stmt, e: Stmt, st: Store, fuel: nat)
    requires ExprOk(a) && ExprOk(b) && StmtOk(t) && StmtOk(e)
    ensures Exec(If(AndAlso(a, b), t), st, fuel) == Exec(If(a, If(b, t)), st, fuel)
    ensures Exec(If(OrElse(a, b), t), st, fuel) == Exec(IfElse(a, t, If(b, t)), st, fuel)
    ensures Exec(IfElse(LogNot(a), t, e), st, fuel) == Exec(IfElse(a, e, t), st, fuel)
  {
    NotIs(a, st.vars);
    LogicUnfolds(a, b, st.vars);
    var st1 := st.(vars := Eval(a, st.vars).1);
    IfUnfolds(AndAlso(a, b), t, e, st, fuel);
    IfUnfolds(OrElse(a, b), t, e, st, fuel);
    IfUnfolds(LogNot(a), t, e, st, fuel);
    IfUnfolds(a, If(b, t), e, st, fuel);
    IfUnfolds(a, t, If(b, t), st, fuel);
    IfUnfolds(a, e, t, st, fuel);
    IfUnfolds(b, t, e, st1, fuel);
    hide Exec, Eval;
  }

  lemma IfUnfolds(c: Expr, t: Stmt, e: Stmt, st: Store, fuel: nat)
    requires ExprOk(c) && StmtOk(t) && StmtOk(e)
    ensures var (v, vars1) := Eval(c, st.vars);
      Exec(If(c, t), st, fuel) == (if v != 0 then Exec(t, st.(vars := vars1), fuel) else (Normal, st.(vars := vars1))) &&
      Exec(IfElse(c, t, e), st, fuel) == Exec(if v != 0 then t else e, st.(vars := vars1), fuel)
  {
    hide Eval;
  }

  /** A conditional takes its first branch for every value but 0. */
  lemma BranchIs(v: i32, t: Stmt, e: Stmt, st: Store, fuel: nat)
    requires StmtOk(t) && StmtOk(e)
    ensures Exec(IfElse(Num(v), t, e), st, fuel) == Exec(if v != 0 then t else e, st, fuel)
    ensures Exec(If(Num(v), t), st, fuel) == Exec(if v != 0 then t else Empty, st, fuel)
  {
    IfUnfolds(Num(v), t, e, st, fuel);
    hide Exec;
  }

  /** An assignment stores the value it means and touches no other variable;
      `x op= e` is `x = x op e`, with x read before e changes it. */
  lemma AssignIs(x: byte, y: byte, op: BinOp, e: Expr, vars: Vars)
    requires x < MAX_VARS && y < MAX_VARS && ExprOk(e)
    ensures var r := Eval(Assign(x, e), vars);
      r.0 == r.1[x] == Eval(e, vars).0 && (y != x ==> r.1[y] == Eval(e, vars).1[y])
    ensures ExprOk(Bin(op, Var(x), e)) && Eval(Update(op, x, e), vars) == Eval(Assign(x, Bin(op, Var(x), e)), vars)
    ensures Eval(PreInc(x), vars) == Eval(Update(Add, x, Num(1)), vars)
    ensures Eval(PreDec(x), vars) == Eval(Update(Sub, x, Num(1)), vars)
  {
    hide Apply;
    assert Eval(Var(x), vars) == (vars[x], vars);
    assert Eval(Bin(op, Var(x), e), vars) == (Apply(op, vars[x], Eval(e, vars).0), Eval(e, vars).1);
  }

  /** Operands are evaluated left to right: the right one sees what the left one
      did to a variable, and not the other way round. */
  lemma LeftFirst(op: BinOp, x: byte, v: i32, vars: Vars)
    requires x < MAX_VARS
    ensures ExprOk(Assign(x, Num(v)))
    ensures Eval(Bin(op, Assign(x, Num(v)), Var(x)), vars).0 == Apply(op, v, v)
    ensures Eval(Bin(op, Var(x), Assign(x, Num(v))), vars).0 == Apply(op, vars[x], v)
  {
    hide Apply;
    assert Eval(Num(v), vars) == (v, vars);
    var vars1 := vars[x := v];
    assert Eval(Assign(x, Num(v)), vars) == (v, vars1);
    assert Eval(Var(x), vars) == (vars[x], vars) && Eval(Var(x), vars1) == (v, vars1);
  }

  // ----- loops -----

  /** A run that ended with some fuel ends so with more. */
  lemma {:induction false} MoreFuel(s: Stmt, st: Store, f: nat, g: nat)
    requires StmtOk(s) && f <= g && Exec(s, st, f).0 != OutOfFuel
    ensures Exec(s, st, g) == Exec(s, st, f)
    decreases f, s, 0
  {
    hide Eval, ExecDecls, ExecClause, CharArg, SleepArg;
    match s
    case Block(ss) => MoreFuelAll(ss, st, f, g);
    case If(c, t) =>
      var (v, vars1) := Eval(c, st.vars);
      if v != 0 {
        MoreFuel(t, st.(vars := vars1), f, g);
      }
    case IfElse(c, t, e) =>
      var (v, vars1) := Eval(c, st.vars);
      MoreFuel(if v != 0 then t else e, st.(vars := vars1), f, g);
    case DoWhile(b, c) =>
      MoreFuel(b, st, f, g);
      var (o, st1) := Exec(b, st, f);
      if !Leaves(o) {
        var (v, vars2) := Eval(c, st1.vars);
        if v != 0 {
          MoreFuel(s, st1.(vars := vars2), f - 1, g - 1);
        }
      }
    case While(c, b) => MoreFuelLoop(Some(c), None, b, st, f, g);
    case For(init, test, step, b) => MoreFuelLoop(test, step, b, st.(vars := ExecClause(init, st.vars)), f, g);
    case _ =>
  }

  lemma {:induction false} MoreFuelAll(ss: Stmts, st: Store, f: nat, g: nat)
    requires StmtsOk(ss) && f <= g && ExecAll(ss, st, f).0 != OutOfFuel
    ensures ExecAll(ss, st, g) == ExecAll(ss, st, f)
    decreases f, ss, 0
  {
    if ss.Cons? {
      MoreFuel(ss.head, st, f, g);
      var (o, st1) := Exec(ss.head, st, f);
      if o == Normal {
        MoreFuelAll(ss.tail, st1, f, g);
      }
    }
  }

  lemma {:induction false} MoreFuelLoop(test: Option<Expr>, step: Option<Expr>, b: Stmt, st: Store, f: nat, g: nat)
    requires OptOk(test) && OptOk(step) && StmtOk(b)
    requires f <= g && ExecLoop(test, step, b, st, f).0 != OutOfFuel
    ensures ExecLoop(test, step, b, st, g) == ExecLoop(test, step, b, st, f)
    decreases f, b, 1
  {
    hide Eval, ExecStep;
    var (v, vars1) := if test.None? then (1, st.vars) else Eval(test.value, st.vars);
    if v != 0 {
      MoreFuel(b, st.(vars := vars1), f, g);
      var (o, st1) := Exec(b, st.(vars := vars1), f);
      if !Leaves(o) {
        MoreFuelLoop(test, step, b, st1.(vars := ExecStep(step, st1.vars)), f - 1, g - 1);
      }
    }
  }

  /** `s`, started in `st`, ends as `r` says. */
  ghost predicate Ends(s: Stmt, st: Store, r: (Outcome, Store))
    requires StmtOk(s)
  {
    r.0 != OutOfFuel && exists fuel: nat :: Exec(s, st, fuel) == r
  }

  /** The two statements end alike from every store, or neither ends. */
  ghost predicate Same(s: Stmt, t: Stmt)
    requires StmtOk(s) && StmtOk(t)
  {
    forall st, r :: Ends(s, st, r) <==> Ends(t, st, r)
  }

  /** A loop is its test around one iteration and the loop again. */
  lemma {:induction false} WhileUnrolls(c: Expr, b: Stmt)
    requires ExprOk(c) && StmtOk(b) && !HasBreak(b) && !HasContinue(b)
    ensures Same(While(c, b), If(c, Then(b, While(c, b))))
  {
    var s, t := While(c, b), If(c, Then(b, While(c, b)));
    forall st, r ensures Ends(s, st, r) <==> Ends(t, st, r) {
      if r.0 != OutOfFuel {
        if f: nat :| Exec(s, st, f) == r {
          MoreFuel(s, st, f, f + 1);
          OneIteration(c, b, st, f);
        }
        if f: nat :| Exec(t, st, f) == r {
          OneIteration(c, b, st, f);
        }
      }
    }
  }

  /** The unrolled loop does with `f` what the loop does with `f` + 1, if it ends. */
  lemma {:induction false} OneIteration(c: Expr, b: Stmt, st: Store, f: nat)
    requires ExprOk(c) && StmtOk(b) && !HasBreak(b) && !HasContinue(b)
    ensures var r, u := Exec(If(c, Then(b, While(c, b))), st, f), Exec(While(c, b), st, f + 1);
      (r.0 != OutOfFuel ==> u == r) && (Exec(While(c, b), st, f).0 != OutOfFuel ==> u == r)
  {
    var (v, vars1) := Eval(c, st.vars);
    var st1 := st.(vars := vars1);
    ThenIs(b, While(c, b), st1, f);
    OutcomeOfStmt(b, st1, f);
    if v != 0 && Exec(b, st1, f).0 != OutOfFuel {
      MoreFuel(b, st1, f, f + 1);
    }
    if Exec(While(c, b), st, f).0 != OutOfFuel {
      MoreFuel(While(c, b), st, f, f + 1);
    }
  }

  /** A `do` is its body once and then the `while`. */
  lemma {:induction false} DoIsWhile(c: Expr, b: Stmt)
    requires ExprOk(c) && StmtOk(b) && !HasBreak(b) && !HasContinue(b)
    ensures Same(DoWhile(b, c), Then(b, While(c, b)))
  {
    var s, t := DoWhile(b, c), Then(b, While(c, b));
    forall st, r ensures Ends(s, st, r) <==> Ends(t, st, r) {
      if r.0 != OutOfFuel {
        if f: nat :| Exec(s, st, f) == r {
          DoThen(c, b, st, f);
        }
        if f: nat :| Exec(t, st, f) == r {
          ThenDo(c, b, st, f);
        }
      }
    }
  }

  lemma {:induction false} DoThen(c: Expr, b: Stmt, st: Store, f: nat)
    requires ExprOk(c) && StmtOk(b) && !HasBreak(b) && !HasContinue(b) && Exec(DoWhile(b, c), st, f).0 != OutOfFuel
    ensures Exec(Then(b, While(c, b)), st, f) == Exec(DoWhile(b, c), st, f)
    decreases f
  {
    OutcomeOfStmt(b, st, f);
    ThenIs(b, While(c, b), st, f);
    var (o, st1) := Exec(b, st, f);
    if o == Normal {
      var (v, vars2) := Eval(c, st1.vars);
      var st2 := st1.(vars := vars2);
      if v != 0 {
        DoThen(c, b, st2, f - 1);
        ThenIs(b, While(c, b), st2, f - 1);
        OutcomeOfStmt(b, st2, f);
        MoreFuel(b, st2, f - 1, f);
      }
    }
  }

  lemma {:induction false} ThenDo(c: Expr, b: Stmt, st: Store, f: nat)
    requires ExprOk(c) && StmtOk(b) && !HasBreak(b) && !HasContinue(b) && Exec(Then(b, While(c, b)), st, f).0 != OutOfFuel
    ensures Exec(DoWhile(b, c), st, f + 1) == Exec(Then(b, While(c, b)), st, f)
  {
    OutcomeOfStmt(b, st, f);
    ThenIs(b, While(c, b), st, f);
    MoreFuel(b, st, f, f + 1);
    var (o, st1) := Exec(b, st, f);
    if o == Normal && Eval(c, st1.vars).0 != 0 {
      LoopIsDo(c, b, st1, f);
    }
  }

  lemma {:induction false} LoopIsDo(c: Expr, b: Stmt, st: Store, f: nat)
    requires ExprOk(c) && StmtOk(b) && !HasBreak(b) && !HasContinue(b)
    requires Eval(c, st.vars).0 != 0 && ExecLoop(Some(c), None, b, st, f).0 != OutOfFuel
    ensures Exec(DoWhile(b, c), st.(vars := Eval(c, st.vars).1), f) == ExecLoop(Some(c), None, b, st, f)
    decreases f
  {
    hide Eval;
    var st1 := st.(vars := Eval(c, st.vars).1);
    OutcomeOfStmt(b, st1, f);
    var (o, st2) := Exec(b, st1, f);
    assert st2.(vars := st2.vars) == st2;
    if o == Normal && Eval(c, st2.vars).0 != 0 {
      LoopIsDo(c, b, st2, f - 1);
    }
  }

  /** A `for` is its first clause and then a `while` whose body ends in the step,
      if its own body has no `continue`, which would run the step first. */
  lemma {:induction false} ForIsWhile(init: Clause, c: Expr, step: Expr, b: Stmt, st: Store, fuel: nat)
    requires ClauseOk(init) && ExprOk(c) && ExprOk(step) && StmtOk(b) && !HasContinue(b)
    ensures Exec(For(init, Some(c), Some(step), b), st, fuel) ==
      Exec(While(c, Then(b, ExprStmt(step))), st.(vars := ExecClause(init, st.vars)), fuel)
  {
    hide Eval, ExecClause, ExecLoop;
    StepInBody(c, step, b, st.(vars := ExecClause(init, st.vars)), fuel);
  }

  lemma {:induction false} StepInBody(c: Expr, step: Expr, b: Stmt, st: Store, fuel: nat)
    requires ExprOk(c) && ExprOk(step) && StmtOk(b) && !HasContinue(b)
    ensures ExecLoop(Some(c), Some(step), b, st, fuel) == ExecLoop(Some(c), None, Then(b, ExprStmt(step)), st, fuel)
    decreases fuel
  {
    hide Eval;
    if fuel > 0 {
      var (v, vars1) := Eval(c, st.vars);
      if v != 0 {
        OutcomeOfStmt(b, st.(vars := vars1), fuel);
        var (o, st1) := Exec(b, st.(vars := vars1), fuel);
        ThenIs(b, ExprStmt(step), st.(vars := vars1), fuel);
        if !Leaves(o) {
          StepInBody(c, step, b, st1.(vars := Eval(step, st1.vars).1), fuel - 1);
        }
      }
    }
  }
}
