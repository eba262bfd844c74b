/** The virtual machine on compiled expressions. */
module SimulateExpr {
  import opened Basics
  import opened Bytecode
  import opened Vm
  import opened Source
  import opened CodeGen

  /** Operand-stack entries an expression needs above the ones present. */
  function Depth(e: Expr): (d: nat)
    ensures d >= 1
  {
    match e
    case Num(_) => 1
    case Var(_) => 1
    case PostInc(_) => 3
    case PostDec(_) => 3
    case PreInc(_) => 2
    case PreDec(_) => 2
    case LogNot(a) => Depth(a)
    case Minus(a) => Depth(a)
    case Bin(_, l, r) => Max(Depth(l), 1 + Depth(r))
    case AndAlso(l, r) => Max(Depth(l), Depth(r))
    case OrElse(l, r) => Max(Depth(l), Depth(r))
    case Assign(_, a) => Max(Depth(a), 2)
    case Update(_, _, a) => 1 + Depth(a)
  }

  function Max(a: nat, b: nat): nat {
    if a >= b then a else b
  }

  ghost predicate Fits(code: seq<byte>, st: State, depth: nat) {
    st.status == Running && |st.vars| == MAX_VARS && |st.stack| + depth <= STACK_MAX &&
    |code| < 0x1_0000_0000
  }

  // ----- single instructions -----

  lemma TopDrop(s: seq<i32>, v: i32)
    ensures Top(s + [v]) == v && Drop(s + [v]) == s
  {
  }

  lemma StepIns(code: seq<byte>, st: State, i: Instr)
    requires st.status == Running && |st.vars| == MAX_VARS
    requires CodeAt(code, st.pc, [i])
    ensures Step(code, st) == Perform(i, |code|, st.(pc := st.pc + InstrSize(i)))
  {
    hide Perform, Fetch, InstrSize;
  }

  /** Run `a` steps to `mid`, then the instruction there. */
  lemma Then(code: seq<byte>, st: State, a: nat, mid: State, i: Instr)
    requires |st.vars| == MAX_VARS
    requires Run(code, st, a) == mid && mid.status == Running
    requires CodeAt(code, mid.pc, [i])
    ensures Run(code, st, a + 1) == Perform(i, |code|, mid.(pc := mid.pc + InstrSize(i)))
  {
    hide Perform, Fetch, Step, CodeAt;
    RunAdd(code, st, a, 1);
    StepIns(code, mid, i);
    assert Run(code, mid, 1) == Run(code, Step(code, mid), 0);
  }

  lemma ThenPush(code: seq<byte>, st: State, a: nat, mid: State, i: Instr, v: i32)
    requires |st.vars| == MAX_VARS
    requires Run(code, st, a) == mid && mid.status == Running && |mid.stack| < STACK_MAX
    requires i == PushConst(v) || (i.PushVar? && i.slot < |mid.vars| == MAX_VARS && v == mid.vars[i.slot])
    requires CodeAt(code, mid.pc, [i])
    ensures Run(code, st, a + 1) == mid.(pc := mid.pc + InstrSize(i), stack := mid.stack + [v])
  {
    hide CodeAt, Run;
    Then(code, st, a, mid, i);
  }

  lemma ThenDup(code: seq<byte>, st: State, a: nat, mid: State, below: seq<i32>, v: i32)
    requires |st.vars| == MAX_VARS
    requires Run(code, st, a) == mid && mid.status == Running && |mid.stack| < STACK_MAX
    requires mid.stack == below + [v]
    requires CodeAt(code, mid.pc, [Dup])
    ensures Run(code, st, a + 1) == mid.(pc := mid.pc + 1, stack := below + [v] + [v])
  {
    hide CodeAt, Run;
    TopDrop(below, v);
    Then(code, st, a, mid, Dup);
  }

  lemma ThenStore(code: seq<byte>, st: State, a: nat, mid: State, below: seq<i32>, v: i32, x: byte)
    requires |st.vars| == |mid.vars| == MAX_VARS && x < MAX_VARS
    requires Run(code, st, a) == mid && mid.status == Running
    requires mid.stack == below + [v]
    requires CodeAt(code, mid.pc, [StoreVar(x)])
    ensures Run(code, st, a + 1) == mid.(pc := mid.pc + 2, stack := below, vars := mid.vars[x := v])
  {
    hide CodeAt, Run;
    TopDrop(below, v);
    Then(code, st, a, mid, StoreVar(x));
  }

  lemma ThenArith(code: seq<byte>, st: State, a: nat, mid: State, below: seq<i32>, l: i32, r: i32, op: BinOp)
    requires |st.vars| == MAX_VARS
    requires Run(code, st, a) == mid && mid.status == Running && |below| < STACK_MAX
    requires mid.stack == below + [l] + [r]
    requires CodeAt(code, mid.pc, [Arith(op)])
    ensures Run(code, st, a + 1) == mid.(pc := mid.pc + 1, stack := below + [Apply(op, l, r)])
  {
    hide CodeAt, Run, Apply;
    TopDrop(below + [l], r);
    TopDrop(below, l);
    Then(code, st, a, mid, Arith(op));
  }

  lemma ThenUnary(code: seq<byte>, st: State, a: nat, mid: State, below: seq<i32>, v: i32, i: Instr)
    requires |st.vars| == MAX_VARS
    requires Run(code, st, a) == mid && mid.status == Running && |below| < STACK_MAX
    requires mid.stack == below + [v] && (i == Not || i == Neg)
    requires CodeAt(code, mid.pc, [i])
    ensures Run(code, st, a + 1) ==
      mid.(pc := mid.pc + 1, stack := below + [if i == Not then Bool(v == 0) else S32(0 - v)])
  {
    hide CodeAt, Run;
    TopDrop(below, v);
    Then(code, st, a, mid, i);
  }

  /** Runs a conditional jump on the value just computed. */
  lemma ThenJz(code: seq<byte>, st: State, a: nat, mid: State, below: seq<i32>, v: i32, t: nat)
    requires |st.vars| == MAX_VARS
    requires Run(code, st, a) == mid && mid.status == Running
    requires mid.stack == below + [v]
    requires t < |code| < 0x1_0000_0000
    requires CodeAt(code, mid.pc, [Jz(U32(t))])
    ensures Run(code, st, a + 1) == mid.(pc := if v == 0 then t else mid.pc + 5, stack := below)
  {
    hide CodeAt, Run;
    TopDrop(below, v);
    Then(code, st, a, mid, Jz(U32(t)));
  }

  lemma ThenJmp(code: seq<byte>, st: State, a: nat, mid: State, t: nat)
    requires |st.vars| == MAX_VARS
    requires Run(code, st, a) == mid && mid.status == Running
    requires t < |code| < 0x1_0000_0000
    requires CodeAt(code, mid.pc, [Jmp(U32(t))])
    ensures Run(code, st, a + 1) == mid.(pc := t)
  {
    hide CodeAt, Run;
    Then(code, st, a, mid, Jmp(U32(t)));
  }

  lemma At2(code: seq<byte>, p: int, a: Instr, b: Instr)
    requires CodeAt(code, p, [a, b])
    ensures CodeAt(code, p, [a]) && CodeAt(code, p + InstrSize(a), [b])
  {
    hide CodeAt;
    assert [a, b] == [a] + [b];
    CodeAtAppend(code, p, [a], [b]);
    SizeOne(a);
  }

  lemma At3(code: seq<byte>, p: int, a: Instr, b: Instr, c: Instr)
    requires CodeAt(code, p, [a, b, c])
    ensures CodeAt(code, p, [a]) && CodeAt(code, p + InstrSize(a), [b])
    ensures CodeAt(code, p + InstrSize(a) + InstrSize(b), [c])
  {
    hide CodeAt;
    assert [a, b, c] == [a] + [b, c];
    CodeAtAppend(code, p, [a], [b, c]);
    SizeOne(a);
    At2(code, p + InstrSize(a), b, c);
  }

  lemma At4(code: seq<byte>, p: int, a: Instr, b: Instr, c: Instr, d: Instr)
    requires CodeAt(code, p, [a, b, c, d])
    ensures CodeAt(code, p, [a]) && CodeAt(code, p + InstrSize(a), [b])
    ensures CodeAt(code, p + InstrSize(a) + InstrSize(b), [c])
    ensures CodeAt(code, p + InstrSize(a) + InstrSize(b) + InstrSize(c), [d])
  {
    hide CodeAt;
    assert [a, b, c, d] == [a] + [b, c, d];
    CodeAtAppend(code, p, [a], [b, c, d]);
    SizeOne(a);
    At3(code, p + InstrSize(a), b, c, d);
  }

  lemma At5(code: seq<byte>, p: int, a: Instr, b: Instr, c: Instr, d: Instr, e: Instr)
    requires CodeAt(code, p, [a, b, c, d, e])
    ensures CodeAt(code, p, [a]) && CodeAt(code, p + InstrSize(a), [b])
    ensures CodeAt(code, p + InstrSize(a) + InstrSize(b), [c])
    ensures CodeAt(code, p + InstrSize(a) + InstrSize(b) + InstrSize(c), [d])
    ensures CodeAt(code, p + InstrSize(a) + InstrSize(b) + InstrSize(c) + InstrSize(d), [e])
  {
    hide CodeAt;
    assert [a, b, c, d, e] == [a] + [b, c, d, e];
    CodeAtAppend(code, p, [a], [b, c, d, e]);
    SizeOne(a);
    At4(code, p + InstrSize(a), b, c, d, e);
  }

  // ----- expressions -----

  /** The state after an expression of `size` bytes left value `v`. */
  ghost function After(st: State, size: nat, r: (i32, Vars)): State {
    st.(pc := st.pc + size, stack := st.stack + [r.0], vars := r.1)
  }

  /** Running compiled code of `e` computes what the interpreter computes:
      exactly one value is pushed, the variables change the same way, nothing
      is printed. */
  lemma {:induction false} SimExpr(code: seq<byte>, e: Expr, st: State) returns (k: nat)
    requires ExprOk(e)
    requires Fits(code, st, Depth(e))
    requires CodeAt(code, st.pc, GenExpr(e, st.pc))
    requires st.pc + ExprSize(e) < |code|
    ensures k >= 1
    ensures Run(code, st, k) == After(st, ExprSize(e), Eval(e, st.vars))
    decreases e, 1
  {
    hide CodeAt, Perform;
    if e.AndAlso? {
      k := SimAnd(code, e, st);
    } else if e.OrElse? {
      k := SimOr(code, e, st);
    } else if e.Bin? {
      k := SimBin(code, e, st);
    } else if e.Update? {
      k := SimUpdate(code, e, st);
    } else if e.Assign? {
      k := SimAssign(code, e, st);
    } else if e.LogNot? {
      k := SimUnary(code, e, e.e, Not, st);
    } else if e.Minus? {
      k := SimUnary(code, e, e.e, Neg, st);
    } else {
      k := SimSimple(code, e, st);
    }
  }

  lemma {:induction false} SimSimple(code: seq<byte>, e: Expr, st: State) returns (k: nat)
    requires ExprOk(e)
    requires e.Num? || e.Var? || e.PostInc? || e.PostDec? || e.PreInc? || e.PreDec?
    requires Fits(code, st, Depth(e))
    requires CodeAt(code, st.pc, GenExpr(e, st.pc))
    ensures k >= 1
    ensures Run(code, st, k) == After(st, ExprSize(e), Eval(e, st.vars))
    decreases e, 0
  {
    hide CodeAt, Perform, Run, Apply;
    RunZero(code, st);
    match e
    case Num(v) => ThenPush(code, st, 0, st, PushConst(v), v); k := 1;
    case Var(x) => ThenPush(code, st, 0, st, PushVar(x), st.vars[x]); k := 1;
    case PostInc(x) => SimPost(code, x, Add, st); k := 5;
    case PostDec(x) => SimPost(code, x, Sub, st); k := 5;
    case PreInc(x) => SimPre(code, x, Add, st); k := 5;
    case PreDec(x) => SimPre(code, x, Sub, st); k := 5;
  }

  lemma SimPost(code: seq<byte>, x: byte, op: BinOp, st: State)
    requires x < MAX_VARS && Fits(code, st, 3)
    requires CodeAt(code, st.pc, [PushVar(x), Dup, PushConst(1), Arith(op), StoreVar(x)])
    ensures Run(code, st, 5) == After(st, 11, (st.vars[x], st.vars[x := Apply(op, st.vars[x], 1)]))
  {
    hide CodeAt, Run, Apply, Perform;
    At5(code, st.pc, PushVar(x), Dup, PushConst(1), Arith(op), StoreVar(x));
    var v := st.vars[x];
    var one := st.stack + [v];
    RunZero(code, st);
    ThenPush(code, st, 0, st, PushVar(x), v);
    ThenDup(code, st, 1, st.(pc := st.pc + 2, stack := one), st.stack, v);
    ThenPush(code, st, 2, st.(pc := st.pc + 3, stack := one + [v]), PushConst(1), 1);
    ThenArith(code, st, 3, st.(pc := st.pc + 8, stack := one + [v] + [1]), one, v, 1, op);
    ThenStore(code, st, 4, st.(pc := st.pc + 9, stack := one + [Apply(op, v, 1)]), one, Apply(op, v, 1), x);
  }

  lemma SimPre(code: seq<byte>, x: byte, op: BinOp, st: State)
    requires x < MAX_VARS && Fits(code, st, 2)
    requires CodeAt(code, st.pc, [PushVar(x), PushConst(1), Arith(op), Dup, StoreVar(x)])
    ensures var v := Apply(op, st.vars[x], 1);
      Run(code, st, 5) == After(st, 11, (v, st.vars[x := v]))
  {
    hide CodeAt, Run, Apply, Perform;
    At5(code, st.pc, PushVar(x), PushConst(1), Arith(op), Dup, StoreVar(x));
    var v := st.vars[x];
    var w := Apply(op, v, 1);
    var one := st.stack + [w];
    RunZero(code, st);
    ThenPush(code, st, 0, st, PushVar(x), v);
    ThenPush(code, st, 1, st.(pc := st.pc + 2, stack := st.stack + [v]), PushConst(1), 1);
    ThenArith(code, st, 2, st.(pc := st.pc + 7, stack := st.stack + [v] + [1]), st.stack, v, 1, op);
    ThenDup(code, st, 3, st.(pc := st.pc + 8, stack := one), st.stack, w);
    ThenStore(code, st, 4, st.(pc := st.pc + 9, stack := one + [w]), one, w, x);
  }

  lemma RunZero(code: seq<byte>, st: State)
    requires |st.vars| == MAX_VARS
    ensures Run(code, st, 0) == st
  {
  }

  lemma {:induction false} SimUnary(code: seq<byte>, e: Expr, a: Expr, i: Instr, st: State) returns (k: nat)
    requires (e == LogNot(a) && i == Not) || (e == Minus(a) && i == Neg)
    requires ExprOk(e)
    requires Fits(code, st, Depth(e))
    requires CodeAt(code, st.pc, GenExpr(e, st.pc))
    requires st.pc + ExprSize(e) < |code|
    ensures k >= 1
    ensures Run(code, st, k) == After(st, ExprSize(e), Eval(e, st.vars))
    decreases e, 0
  {
    hide CodeAt, Run, Perform;
    CodeAtAppend(code, st.pc, GenExpr(a, st.pc), [i]);
    GenExprSize(a, st.pc);
    k := SimExpr(code, a, st);
    var r := Eval(a, st.vars);
    ThenUnary(code, st, k, After(st, ExprSize(a), r), st.stack, r.0, i);
    k := k + 1;
  }

  lemma BinLayout(code: seq<byte>, e: Expr, base: nat)
    requires e.Bin? && CodeAt(code, base, GenExpr(e, base))
    ensures var right := base + ExprSize(e.l);
      CodeAt(code, base, GenExpr(e.l, base)) && CodeAt(code, right, GenExpr(e.r, right)) &&
      CodeAt(code, right + ExprSize(e.r), [Arith(e.op)])
  {
    hide CodeAt, GenExpr, Size;
    UnfoldBin(e, base);
    var right := base + ExprSize(e.l);
    CodeAtAppend(code, base, GenExpr(e.l, base), GenExpr(e.r, right) + [Arith(e.op)]);
    GenExprSize(e.l, base);
    CodeAtAppend(code, right, GenExpr(e.r, right), [Arith(e.op)]);
    GenExprSize(e.r, right);
  }

  lemma {:induction false} SimBin(code: seq<byte>, e: Expr, st: State) returns (k: nat)
    requires e.Bin? && ExprOk(e)
    requires Fits(code, st, Depth(e))
    requires CodeAt(code, st.pc, GenExpr(e, st.pc))
    requires st.pc + ExprSize(e) < |code|
    ensures k >= 1
    ensures Run(code, st, k) == After(st, ExprSize(e), Eval(e, st.vars))
    decreases e, 0
  {
    hide CodeAt, Run, Apply, Perform, GenExpr;
    BinLayout(code, e, st.pc);
    var k1 := SimExpr(code, e.l, st);
    var r1 := Eval(e.l, st.vars);
    var s1 := After(st, ExprSize(e.l), r1);
    var k2 := SimExpr(code, e.r, s1);
    RunAdd(code, st, k1, k2);
    var r2 := Eval(e.r, r1.1);
    var s2 := After(s1, ExprSize(e.r), r2);
    ThenArith(code, st, k1 + k2, s2, st.stack, r1.0, r2.0, e.op);
    k := k1 + k2 + 1;
  }

  lemma {:induction false} SimAssign(code: seq<byte>, e: Expr, st: State) returns (k: nat)
    requires e.Assign? && ExprOk(e)
    requires Fits(code, st, Depth(e))
    requires CodeAt(code, st.pc, GenExpr(e, st.pc))
    requires st.pc + ExprSize(e) < |code|
    ensures k >= 1
    ensures Run(code, st, k) == After(st, ExprSize(e), Eval(e, st.vars))
    decreases e, 0
  {
    hide CodeAt, Run, Perform;
    CodeAtAppend(code, st.pc, GenExpr(e.e, st.pc), [Dup, StoreVar(e.x)]);
    GenExprSize(e.e, st.pc);
    At2(code, st.pc + ExprSize(e.e), Dup, StoreVar(e.x));
    k := SimExpr(code, e.e, st);
    var r := Eval(e.e, st.vars);
    k := ThenKeep(code, st, k, After(st, ExprSize(e.e), r), st.stack, r.0, e.x);
  }

  /** The common ending of assignments: duplicate the value and store it. */
  lemma ThenKeep(code: seq<byte>, st: State, a: nat, mid: State, below: seq<i32>, v: i32, x: byte) returns (k: nat)
    requires |st.vars| == |mid.vars| == MAX_VARS && x < MAX_VARS
    requires Run(code, st, a) == mid && mid.status == Running
    requires |mid.stack| < STACK_MAX && mid.stack == below + [v]
    requires CodeAt(code, mid.pc, [Dup]) && CodeAt(code, mid.pc + 1, [StoreVar(x)])
    ensures k == a + 2
    ensures Run(code, st, k) == mid.(pc := mid.pc + 3, vars := mid.vars[x := v])
  {
    hide CodeAt, Run, Perform;
    ThenDup(code, st, a, mid, below, v);
    ThenStore(code, st, a + 1, mid.(pc := mid.pc + 1, stack := mid.stack + [v]), mid.stack, v, x);
    k := a + 2;
  }

  lemma UpdateLayout(code: seq<byte>, e: Expr, base: nat)
    requires e.Update? && CodeAt(code, base, GenExpr(e, base))
    ensures var op := base + 2 + ExprSize(e.e);
      CodeAt(code, base, [PushVar(e.x)]) && CodeAt(code, base + 2, GenExpr(e.e, base + 2)) &&
      CodeAt(code, op, [Arith(e.op)]) && CodeAt(code, op + 1, [Dup]) && CodeAt(code, op + 2, [StoreVar(e.x)])
  {
    hide CodeAt, GenExpr, Size;
    UnfoldUpdate(e, base);
    var tail := [Arith(e.op), Dup, StoreVar(e.x)];
    CodeAtAppend(code, base, [PushVar(e.x)], GenExpr(e.e, base + 2) + tail);
    SizeOne(PushVar(e.x));
    CodeAtAppend(code, base + 2, GenExpr(e.e, base + 2), tail);
    GenExprSize(e.e, base + 2);
    At3(code, base + 2 + ExprSize(e.e), Arith(e.op), Dup, StoreVar(e.x));
  }

  lemma {:induction false} SimUpdate(code: seq<byte>, e: Expr, st: State) returns (k: nat)
    requires e.Update? && ExprOk(e)
    requires Fits(code, st, Depth(e))
    requires CodeAt(code, st.pc, GenExpr(e, st.pc))
    requires st.pc + ExprSize(e) < |code|
    ensures k >= 1
    ensures Run(code, st, k) == After(st, ExprSize(e), Eval(e, st.vars))
    decreases e, 0
  {
    hide CodeAt, Run, Apply, Perform, GenExpr;
    var x := e.x;
    UpdateLayout(code, e, st.pc);
    RunZero(code, st);
    var v := st.vars[x];
    ThenPush(code, st, 0, st, PushVar(x), v);
    var s1 := st.(pc := st.pc + 2, stack := st.stack + [v]);
    var k1 := SimExpr(code, e.e, s1);
    RunAdd(code, st, 1, k1);
    var r := Eval(e.e, st.vars);
    var s2 := After(s1, ExprSize(e.e), r);
    ThenArith(code, st, 1 + k1, s2, st.stack, v, r.0, e.op);
    var w := Apply(e.op, v, r.0);
    k := ThenKeep(code, st, k1 + 2, s2.(pc := s2.pc + 1, stack := st.stack + [w]), st.stack, w, x);
  }

  /** Push a truth value and jump to the end of the expression. */
  lemma ThenConstJmp(code: seq<byte>, st: State, a: nat, mid: State, v: i32, t: nat)
    requires |st.vars| == MAX_VARS
    requires Run(code, st, a) == mid && mid.status == Running && |mid.stack| < STACK_MAX
    requires t < |code| < 0x1_0000_0000
    requires CodeAt(code, mid.pc, [PushConst(v)]) && CodeAt(code, mid.pc + 5, [Jmp(U32(t))])
    ensures Run(code, st, a + 2) == mid.(pc := t, stack := mid.stack + [v])
  {
    hide CodeAt, Run, Perform;
    ThenPush(code, st, a, mid, PushConst(v), v);
    ThenJmp(code, st, a + 1, mid.(pc := mid.pc + 5, stack := mid.stack + [v]), t);
  }

  /** The second half of `&&` and `||`: the right operand is on the stack and
      is turned into a truth value. */
  lemma ThenTruth(code: seq<byte>, st: State, a: nat, mid: State, below: seq<i32>, v: i32) returns (k: nat)
    requires |st.vars| == MAX_VARS
    requires Run(code, st, a) == mid && mid.status == Running
    requires mid.stack == below + [v] && |mid.stack| <= STACK_MAX
    requires mid.pc + 20 < |code| < 0x1_0000_0000
    requires CodeAt(code, mid.pc,
      [Jz(U32(mid.pc + 15)), PushConst(1), Jmp(U32(mid.pc + 20)), PushConst(0)])
    ensures k >= a
    ensures Run(code, st, k) == mid.(pc := mid.pc + 20, stack := below + [Bool(v != 0)])
  {
    hide CodeAt, Run, Perform;
    At4(code, mid.pc, Jz(U32(mid.pc + 15)), PushConst(1), Jmp(U32(mid.pc + 20)), PushConst(0));
    ThenJz(code, st, a, mid, below, v, mid.pc + 15);
    if v == 0 {
      ThenPush(code, st, a + 1, mid.(pc := mid.pc + 15, stack := below), PushConst(0), 0);
      k := a + 2;
    } else {
      ThenConstJmp(code, st, a + 1, mid.(pc := mid.pc + 5, stack := below), 1, mid.pc + 20);
      k := a + 3;
    }
  }

  lemma LogicLayout(code: seq<byte>, e: Expr, base: nat)
    requires (e.AndAlso? || e.OrElse?) && CodeAt(code, base, GenExpr(e, base))
    ensures CodeAt(code, base, GenExpr(e.l, base))
    ensures CodeAt(code, base + ExprSize(e.l), LogicMid(e, base))
    ensures CodeAt(code, RightBase(e, base), GenExpr(e.r, RightBase(e, base)))
    ensures CodeAt(code, RightBase(e, base) + ExprSize(e.r), LogicTail(e, base))
  {
    hide CodeAt, GenExpr, Size, LogicTail, U32;
    UnfoldLogic(e, base);
    var rhs := RightBase(e, base);
    var rest := GenExpr(e.r, rhs) + LogicTail(e, base);
    CodeAtAppend(code, base, GenExpr(e.l, base), LogicMid(e, base) + rest);
    GenExprSize(e.l, base);
    CodeAtAppend(code, base + ExprSize(e.l), LogicMid(e, base), rest);
    if e.AndAlso? {
      SizeOne(LogicMid(e, base)[0]);
    } else {
      Size3(LogicMid(e, base)[0], LogicMid(e, base)[1], LogicMid(e, base)[2]);
    }
    CodeAtAppend(code, rhs, GenExpr(e.r, rhs), LogicTail(e, base));
    GenExprSize(e.r, rhs);
  }

  lemma {:induction false} SimAnd(code: seq<byte>, e: Expr, st: State) returns (k: nat)
    requires e.AndAlso? && ExprOk(e)
    requires Fits(code, st, Depth(e))
    requires CodeAt(code, st.pc, GenExpr(e, st.pc))
    requires st.pc + ExprSize(e) < |code|
    ensures k >= 1
    ensures Run(code, st, k) == After(st, ExprSize(e), Eval(e, st.vars))
    decreases e, 0
  {
    hide CodeAt, Run, Perform, GenExpr;
    var jz := st.pc + ExprSize(e.l);
    var rhs := jz + 5;
    var test := rhs + ExprSize(e.r);
    var no := test + 15;
    LogicLayout(code, e, st.pc);
    k := SimExpr(code, e.l, st);
    var r1 := Eval(e.l, st.vars);
    ThenJz(code, st, k, After(st, ExprSize(e.l), r1), st.stack, r1.0, no);
    k := k + 1;
    if r1.0 == 0 {
      At4(code, test, Jz(U32(no)), PushConst(1), Jmp(U32(no + 5)), PushConst(0));
      ThenPush(code, st, k, st.(pc := no, vars := r1.1), PushConst(0), 0);
      k := k + 1;
    } else {
      var s1 := st.(pc := rhs, vars := r1.1);
      var k2 := SimExpr(code, e.r, s1);
      RunAdd(code, st, k, k2);
      var r2 := Eval(e.r, r1.1);
      k := ThenTruth(code, st, k + k2, After(s1, ExprSize(e.r), r2), st.stack, r2.0);
    }
  }

  lemma {:induction false} SimOr(code: seq<byte>, e: Expr, st: State) returns (k: nat)
    requires e.OrElse? && ExprOk(e)
    requires Fits(code, st, Depth(e))
    requires CodeAt(code, st.pc, GenExpr(e, st.pc))
    requires st.pc + ExprSize(e) < |code|
    ensures k >= 1
    ensures Run(code, st, k) == After(st, ExprSize(e), Eval(e, st.vars))
    decreases e, 0
  {
    hide CodeAt, Run, Perform, GenExpr;
    var jz := st.pc + ExprSize(e.l);
    var rhs := jz + 15;
    var test := rhs + ExprSize(e.r);
    var no := test + 15;
    LogicLayout(code, e, st.pc);
    At3(code, jz, Jz(U32(rhs)), PushConst(1), Jmp(U32(no + 5)));
    k := SimExpr(code, e.l, st);
    var r1 := Eval(e.l, st.vars);
    ThenJz(code, st, k, After(st, ExprSize(e.l), r1), st.stack, r1.0, rhs);
    k := k + 1;
    if r1.0 != 0 {
      ThenConstJmp(code, st, k, st.(pc := jz + 5, vars := r1.1), 1, no + 5);
      k := k + 2;
    } else {
      var s1 := st.(pc := rhs, vars := r1.1);
      var k2 := SimExpr(code, e.r, s1);
      RunAdd(code, st, k, k2);
      var r2 := Eval(e.r, r1.1);
      k := ThenTruth(code, st, k + k2, After(s1, ExprSize(e.r), r2), st.stack, r2.0);
    }
  }
}
