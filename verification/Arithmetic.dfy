/** What the operators of the language and of the virtual machine compute, in
    plain integer arithmetic. */
module Arithmetic {
  import opened Basics
  import opened Bytecode
  import opened Vm
  import opened Source

  /** Reducing to 32 bits changes a number by a multiple of 2^32, and a number
      that fits not at all. */
  lemma S32Is(x: int)
    ensures exists k: int :: S32(x) == x + k * 0x1_0000_0000
    ensures -0x8000_0000 <= x < 0x8000_0000 ==> S32(x) == x
    ensures 0 <= U32(x) < 0x1_0000_0000 && S32(U32(x)) == S32(x)
  {
    var q := x / 0x1_0000_0000;
    assert S32(x) == x + (-q) * 0x1_0000_0000 || S32(x) == x + (-q - 1) * 0x1_0000_0000;
  }

  /** Sums, differences and products are exact when they fit 32 bits, and else
      differ from the true result by a multiple of 2^32. */
  lemma SumsAre(l: i32, r: i32)
    ensures exists k: int :: Apply(Add, l, r) == l + r + k * 0x1_0000_0000
    ensures exists k: int :: Apply(Sub, l, r) == l - r + k * 0x1_0000_0000
    ensures exists k: int :: Apply(Mul, l, r) == l * r + k * 0x1_0000_0000
    ensures -0x8000_0000 <= l + r < 0x8000_0000 ==> Apply(Add, l, r) == l + r
    ensures -0x8000_0000 <= l - r < 0x8000_0000 ==> Apply(Sub, l, r) == l - r
    ensures -0x8000_0000 <= l * r < 0x8000_0000 ==> Apply(Mul, l, r) == l * r
  {
    S32Is(l + r);
    S32Is(l - r);
    S32Is(l * r);
    hide S32;
  }

  function Abs(x: int): nat {
    if x < 0 then -x else x
  }

  /** Division truncates toward zero and the remainder has the sign of the
      dividend; both are 0 for the divisor 0.  The one quotient that does not
      fit comes back as its negation. */
  lemma DivisionIs(l: i32, r: i32)
    ensures var q, m := Apply(Div, l, r), Apply(Mod, l, r);
      if r == 0 then q == 0 && m == 0
      else if l == -0x8000_0000 && r == -1 then q == -0x8000_0000 && m == 0
      else l == q * r + m && Abs(m) < Abs(r) && (m != 0 ==> (m > 0 <==> l > 0))
  {
    if r != 0 {
      var q := TruncDiv(l, r);
      Truncated(l, r);
      hide TruncDiv;
      var m := l - r * q;
      assert r * q == q * r;
      if l == -0x8000_0000 && r == -1 {
        assert q == 0x8000_0000 && m == 0;
      } else {
        assert -0x8000_0000 <= q < 0x8000_0000;
        S32Is(q);
        S32Is(m);
        hide S32;
      }
    }
  }

  /** Quotient and remainder of the truncating division. */
  lemma Truncated(l: int, r: int)
    requires r != 0
    ensures var q := TruncDiv(l, r);
      var m := l - r * q;
      Abs(m) < Abs(r) && (m != 0 ==> (m > 0 <==> l > 0)) && Abs(q) <= Abs(l) && (q != 0 ==> (q > 0 <==> (l > 0 <==> r > 0))) &&
      (Abs(r) > 1 && l != 0 ==> Abs(q) < Abs(l))
  {
    Positive(l, r);
    var a, b := Abs(l), Abs(r);
    var p: int := a / b;
    Quotient(a, b);
    hide TruncDiv;
    var q := if l >= 0 <==> r > 0 then p else -p;
    assert r * q == if l >= 0 then b * p else -(b * p) by {
      Signs(p, b, r, q);
    }
  }

  lemma Signs(p: int, b: int, r: int, q: int)
    requires (r == b || r == -b) && (q == p || q == -p)
    ensures r * q == if (r == b) == (q == p) then b * p else -(b * p)
  {
    assert b * -p == -(b * p) && -b * p == -(b * p) && -b * -p == b * p;
  }

  /** The quotient of the magnitudes, with its sign. */
  lemma Positive(l: int, r: int)
    requires r != 0
    ensures TruncDiv(l, r) == if l >= 0 <==> r > 0 then Abs(l) / Abs(r) else -(Abs(l) / Abs(r))
  {
  }

  lemma Quotient(a: nat, b: nat)
    requires b > 0
    ensures var p := a / b; 0 <= p <= a && 0 <= a - b * p < b && (b > 1 && a > 0 ==> p < a)
  {
    var p := a / b;
    assert a == b * p + a % b;
    Scaled(p, b);
  }

  lemma Scaled(p: nat, b: nat)
    requires b > 0
    ensures b * p >= p && (b > 1 ==> b * p >= 2 * p) && (p > 0 ==> b * p >= b)
  {
  }

  /** A comparison is 1 if the integers compare so, and else 0. */
  lemma ComparisonsAre(l: i32, r: i32)
    ensures Apply(Lt, l, r) == if l < r then 1 else 0
    ensures Apply(Le, l, r) == if l <= r then 1 else 0
    ensures Apply(Gt, l, r) == if l > r then 1 else 0
    ensures Apply(Ge, l, r) == if l >= r then 1 else 0
    ensures Apply(Eq, l, r) == if l == r then 1 else 0
    ensures Apply(Ne, l, r) == if l != r then 1 else 0
  {
  }

  /** Negation is exact but for the least value, which stays; logical not is 1
      for 0 and else 0.  The machine computes on its stack what the language
      means. */
  lemma NegationsAre(a: Expr, vars: Vars, below: seq<i32>, v: i32, st: State, size: nat)
    requires ExprOk(a) && Eval(a, vars).0 == v && |below| < STACK_MAX
    requires |st.vars| == MAX_VARS && st.stack == below + [v]
    ensures Eval(Minus(a), vars) == (if v == -0x8000_0000 then v else -v, Eval(a, vars).1)
    ensures Eval(LogNot(a), vars) == (if v == 0 then 1 else 0, Eval(a, vars).1)
    ensures Perform(Neg, size, st) == st.(stack := below + [if v == -0x8000_0000 then v else -v])
    ensures Perform(Not, size, st) == st.(stack := below + [if v == 0 then 1 else 0])
  {
    hide Apply, Push;
    Negated(v);
    PushesOver(st.(stack := below), S32(0 - v));
    PushesOver(st.(stack := below), Bool(v == 0));
    hide S32;
    assert st.stack[..|st.stack| - 1] == below;
  }

  lemma Negated(v: i32)
    ensures S32(0 - v) == if v == -0x8000_0000 then v else -v
  {
  }

  lemma PushesOver(st: State, v: i32)
    requires |st.stack| < STACK_MAX
    ensures Push(st, v) == st.(stack := st.stack + [v])
  {
  }

  /** The strict logical instructions, which the compiler does not emit, and the
      exit. */
  lemma StrictLogicIs(below: seq<i32>, l: i32, r: i32, st: State, size: nat, status: u32)
    requires |below| < STACK_MAX && |st.vars| == MAX_VARS && st.stack == below + [l, r]
    ensures Perform(LAnd, size, st) == st.(stack := below + [if l != 0 && r != 0 then 1 else 0])
    ensures Perform(LOr, size, st) == st.(stack := below + [if l != 0 || r != 0 then 1 else 0])
    ensures Perform(Exit(status), size, st) == st.(status := Halted)
  {
    assert st.stack[..|st.stack| - 1] == below + [l];
    assert (below + [l])[..|below|] == below;
  }

  /** `++` and `--` store the neighbour, wrapping at the ends of the range; the
      postfix forms mean the value before, the prefix forms the value after. */
  lemma IncrementsAre(x: byte, vars: Vars)
    requires x < MAX_VARS
    ensures var up: i32 := if vars[x] == 0x7FFF_FFFF then -0x8000_0000 else vars[x] + 1;
      Eval(PostInc(x), vars) == (vars[x], vars[x := up]) && Eval(PreInc(x), vars) == (up, vars[x := up])
    ensures var down: i32 := if vars[x] == -0x8000_0000 then 0x7FFF_FFFF else vars[x] - 1;
      Eval(PostDec(x), vars) == (vars[x], vars[x := down]) && Eval(PreDec(x), vars) == (down, vars[x := down])
  {
  }

  /** What the calls into the kernel are given: the low byte of a value, and a
      value read as a 64-bit word, so that a negative one is a time of nearly
      2^64. */
  lemma ArgumentsAre(v: i32)
    ensures exists k: int :: CharArg(v) == v + k * 256
    ensures 0 <= v < 256 ==> CharArg(v) == v
    ensures v >= 0 ==> SleepArg(v) == v
    ensures v < 0 ==> SleepArg(v) == 0x1_0000_0000_0000_0000 + v
  {
    assert CharArg(v) == v + (-(v / 256)) * 256;
  }

  /** A string ends at its first zero byte. */
  lemma {:induction false} StringIs(s: seq<byte>)
    requires 0 in s
    ensures var n := |CString(s)|; n < |s| && s[n] == 0 && CString(s) == s[..n] && 0 !in s[..n]
  {
    if s[0] != 0 {
      StringIs(s[1..]);
      var n := |CString(s[1..])|;
      assert s[..n + 1] == [s[0]] + s[1..][..n];
    }
  }

  /** The edges of the stack and of the code: a full stack ends the program, an
      empty one reads as 0, and a jump behind the code ends the program. */
  lemma EdgesAre(st: State, v: i32, slot: byte, t: u32, size: nat)
    requires |st.vars| == MAX_VARS
    ensures |st.stack| == 64 ==> Perform(PushConst(v), size, st) == st.(status := Halted)
    ensures |st.stack| == 64 && slot < 32 ==> Perform(PushVar(slot), size, st) == st.(status := Halted)
    ensures st.stack == [] ==> Perform(Pop, size, st) == st
    ensures st.stack == [] && slot < 32 ==> Perform(StoreVar(slot), size, st) == st.(vars := st.vars[slot := 0])
    ensures st.stack == [] && t < size ==> Perform(Jz(t), size, st) == st.(pc := t)
    ensures t >= size ==> Perform(Jmp(t), size, st) == Perform(Jz(t), size, st) == st.(status := Halted)
    ensures slot >= 32 ==> Perform(PushVar(slot), size, st).status == Perform(StoreVar(slot), size, st).status == Undefined
  {
    assert st.stack == [] ==> st.stack[..0] == [];
  }

  /** A program starts at its first byte with an empty stack and all variables
      0, and nothing called. */
  lemma StartIs(x: nat)
    requires x < 32
    ensures |Initial().vars| == 32 && Initial().vars[x] == 0
    ensures Initial().pc == 0 && Initial().stack == [] && Initial().trace == [] && Initial().status == Running
  {
  }
}
