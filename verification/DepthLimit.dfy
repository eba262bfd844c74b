/** Why static depth is bounded: straight-line code of an expression reaches its
    end exactly when the operand stack has room for its depth. */
module DepthLimit {
  import opened Basics
  import opened Bytecode
  import opened Vm
  import opened Source
  import opened CodeGen
  import opened SimulateExpr
  import opened StackDiscipline

  /** Instructions that go on to the next one and print nothing. */
  predicate Straight(i: Instr) {
    (i.PushConst? || i.PushVar? || i.StoreVar? || i.Arith? || i.Dup? || i.Not? || i.Neg?) &&
    (i.PushVar? || i.StoreVar? ==> i.slot < MAX_VARS)
  }

  /** Straight-line code that finds its operands, entered with height `h`. */
  predicate Fed(ins: seq<Instr>, h: int) {
    ins == [] || (Straight(ins[0]) && Pops(ins[0]) <= h && Fed(ins[1..], h - Pops(ins[0]) + Pushes(ins[0])))
  }

  /** Every result has room on the stack. */
  predicate Fits(ins: seq<Instr>, h: int) {
    ins == [] || (h - Pops(ins[0]) + Pushes(ins[0]) <= STACK_MAX && Fits(ins[1..], h - Pops(ins[0]) + Pushes(ins[0])))
  }

  /** A result without room leaves the interpreter loop. */
  lemma NoRoom(code: seq<byte>, st: State, i: Instr)
    requires st.status == Running && |st.vars| == MAX_VARS && CodeAt(code, st.pc, [i]) && Straight(i)
    requires Pops(i) <= |st.stack| <= STACK_MAX && |st.stack| - Pops(i) + Pushes(i) > STACK_MAX
    ensures Step(code, st).status == Halted
  {
    hide Fetch, Step;
    StepIns(code, st, i);
  }

  /** Straight-line code runs through exactly when everything fits. */
  lemma {:induction false} StraightRun(code: seq<byte>, st: State, ins: seq<Instr>)
    requires st.status == Running && |st.vars| == MAX_VARS && |st.stack| <= STACK_MAX
    requires CodeAt(code, st.pc, ins) && Fed(ins, |st.stack|)
    ensures var t := Run(code, st, |ins|);
      if Fits(ins, |st.stack|) then t.status == Running && t.pc == st.pc + Size(ins) else t.status == Halted
    decreases |ins|
  {
    hide Fetch, Step, Pops, Pushes, Straight, CodeAt;
    if ins != [] {
      var i := ins[0];
      assert ins == [i] + ins[1..];
      CodeAtAppend(code, st.pc, [i], ins[1..]);
      SizeOne(i);
      NotJump(i);
      var t := Step(code, st);
      if |st.stack| - Pops(i) + Pushes(i) <= STACK_MAX {
        StepShape(code, st, i);
        StraightRun(code, t, ins[1..]);
      } else {
        NoRoom(code, st, i);
        StoppedStays(code, t, |ins| - 1);
      }
    }
  }

  lemma NotJump(i: Instr)
    requires Straight(i)
    ensures !i.Exit? && !i.Puts? && !i.Jmp? && !i.Jz? && !i.Ret? && (i.PushVar? || i.StoreVar? ==> i.slot < MAX_VARS)
  {
  }

  /** One instruction in front. */
  lemma Front(i: Instr, rest: seq<Instr>, h: int)
    requires Straight(i) && Pops(i) <= h
    ensures var g := h - Pops(i) + Pushes(i);
      (Fed([i] + rest, h) <==> Fed(rest, g)) && (Fits([i] + rest, h) <==> g <= STACK_MAX && Fits(rest, g))
  {
    assert ([i] + rest)[0] == i && ([i] + rest)[1..] == rest;
  }

  /** In front of other code, the code of an expression without short-circuit
      operators needs as much room as its depth, and leaves one value. */
  lemma {:induction false} DepthFits(e: Expr, b: int, h: nat, rest: seq<Instr>)
    requires !HasLogic(e) && ExprOk(e)
    ensures Fed(GenExpr(e, b) + rest, h) <==> Fed(rest, h + 1)
    ensures Fits(GenExpr(e, b) + rest, h) <==> h + Depth(e) <= STACK_MAX && Fits(rest, h + 1)
    decreases e
  {
    hide Fed, Fits, GenExpr;
    if Leaf(e) {
      LeafFits(e, b, h, rest);
    } else if e.Bin? {
      UnfoldBin(e, b);
      var l, r := GenExpr(e.l, b), GenExpr(e.r, b + ExprSize(e.l));
      assert l + (r + [Arith(e.op)]) + rest == l + (r + ([Arith(e.op)] + rest));
      DepthFits(e.l, b, h, r + ([Arith(e.op)] + rest));
      DepthFits(e.r, b + ExprSize(e.l), h + 1, [Arith(e.op)] + rest);
      Front(Arith(e.op), rest, h + 2);
    } else if e.Update? {
      UnfoldUpdate(e, b);
      var a := GenExpr(e.e, b + 2);
      assert [PushVar(e.x)] + (a + [Arith(e.op), Dup, StoreVar(e.x)]) + rest ==
        [PushVar(e.x)] + (a + ([Arith(e.op)] + ([Dup] + ([StoreVar(e.x)] + rest))));
      Front(PushVar(e.x), a + ([Arith(e.op)] + ([Dup] + ([StoreVar(e.x)] + rest))), h);
      DepthFits(e.e, b + 2, h + 1, [Arith(e.op)] + ([Dup] + ([StoreVar(e.x)] + rest)));
      Front(Arith(e.op), [Dup] + ([StoreVar(e.x)] + rest), h + 2);
      Front(Dup, [StoreVar(e.x)] + rest, h + 1);
      Front(StoreVar(e.x), rest, h + 2);
    } else {
      UnfoldUnary(e, b);
      var a := GenExpr(e.e, b);
      if e.Assign? {
        assert a + UnaryTail(e) + rest == a + ([Dup] + ([StoreVar(e.x)] + rest));
        DepthFits(e.e, b, h, [Dup] + ([StoreVar(e.x)] + rest));
        Front(Dup, [StoreVar(e.x)] + rest, h + 1);
        Front(StoreVar(e.x), rest, h + 2);
      } else {
        assert a + UnaryTail(e) + rest == a + (UnaryTail(e) + rest);
        DepthFits(e.e, b, h, UnaryTail(e) + rest);
        Front(if e.LogNot? then Not else Neg, rest, h + 1);
      }
    }
  }

  lemma LeafFits(e: Expr, b: int, h: nat, rest: seq<Instr>)
    requires Leaf(e) && ExprOk(e)
    ensures Fed(GenExpr(e, b) + rest, h) <==> Fed(rest, h + 1)
    ensures Fits(GenExpr(e, b) + rest, h) <==> h + Depth(e) <= STACK_MAX && Fits(rest, h + 1)
  {
    hide Fed, Fits;
    match e
    case Num(v) => Front(PushConst(v), rest, h);
    case Var(x) => Front(PushVar(x), rest, h);
    case PostInc(x) => PostFits(x, Add, h, rest);
    case PostDec(x) => PostFits(x, Sub, h, rest);
    case PreInc(x) => PreFits(x, Add, h, rest);
    case PreDec(x) => PreFits(x, Sub, h, rest);
  }

  lemma PostFits(x: byte, op: BinOp, h: nat, rest: seq<Instr>)
    requires x < MAX_VARS
    ensures var ins := [PushVar(x), Dup, PushConst(1), Arith(op), StoreVar(x)] + rest;
      (Fed(ins, h) <==> Fed(rest, h + 1)) && (Fits(ins, h) <==> h + 3 <= STACK_MAX && Fits(rest, h + 1))
  {
    hide Fed, Fits;
    assert [PushVar(x), Dup, PushConst(1), Arith(op), StoreVar(x)] + rest ==
      [PushVar(x)] + ([Dup] + ([PushConst(1)] + ([Arith(op)] + ([StoreVar(x)] + rest))));
    Front(PushVar(x), [Dup] + ([PushConst(1)] + ([Arith(op)] + ([StoreVar(x)] + rest))), h);
    Front(Dup, [PushConst(1)] + ([Arith(op)] + ([StoreVar(x)] + rest)), h + 1);
    Front(PushConst(1), [Arith(op)] + ([StoreVar(x)] + rest), h + 2);
    Front(Arith(op), [StoreVar(x)] + rest, h + 3);
    Front(StoreVar(x), rest, h + 2);
  }

  lemma PreFits(x: byte, op: BinOp, h: nat, rest: seq<Instr>)
    requires x < MAX_VARS
    ensures var ins := [PushVar(x), PushConst(1), Arith(op), Dup, StoreVar(x)] + rest;
      (Fed(ins, h) <==> Fed(rest, h + 1)) && (Fits(ins, h) <==> h + 2 <= STACK_MAX && Fits(rest, h + 1))
  {
    hide Fed, Fits;
    assert [PushVar(x), PushConst(1), Arith(op), Dup, StoreVar(x)] + rest ==
      [PushVar(x)] + ([PushConst(1)] + ([Arith(op)] + ([Dup] + ([StoreVar(x)] + rest))));
    Front(PushVar(x), [PushConst(1)] + ([Arith(op)] + ([Dup] + ([StoreVar(x)] + rest))), h);
    Front(PushConst(1), [Arith(op)] + ([Dup] + ([StoreVar(x)] + rest)), h + 1);
    Front(Arith(op), [Dup] + ([StoreVar(x)] + rest), h + 2);
    Front(Dup, [StoreVar(x)] + rest, h + 1);
    Front(StoreVar(x), rest, h + 2);
  }

  /** Entered with any stack, the code of an expression without short-circuit
      operators ends just past itself if the stack has room for its static
      depth, and has left the interpreter loop by then if not. */
  lemma {:induction false} DepthDecides(code: seq<byte>, e: Expr, st: State)
    requires !HasLogic(e) && ExprOk(e) && st.status == Running && |st.vars| == MAX_VARS && |st.stack| <= STACK_MAX
    requires CodeAt(code, st.pc, GenExpr(e, st.pc))
    ensures var t := Run(code, st, |GenExpr(e, st.pc)|);
      (t.status == Running <==> |st.stack| + Depth(e) <= STACK_MAX) && (t.status == Halted || t.pc == st.pc + ExprSize(e))
  {
    hide Run, GenExpr, CodeAt, Size, ExprOk, HasLogic;
    var ins := GenExpr(e, st.pc);
    assert ins + [] == ins;
    DepthFits(e, st.pc, |st.stack|, []);
    StraightRun(code, st, ins);
    GenExprSize(e, st.pc);
  }
}
