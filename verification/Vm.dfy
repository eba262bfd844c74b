/** The virtual machine loop as a step function.  Leaving the interpreter
    loop, for whatever reason, is `Halted`; reading or writing a variable slot
    outside the 32-entry table, or printing a string with no terminator inside
    the program, is `Undefined`. */
module Vm {
  import opened Basics
  import opened Bytecode

  const MAX_VARS := 32
  const STACK_MAX := 64

  /** The calls the program makes into the kernel, in order. */
  datatype Event = PutString(text: seq<byte>) | PutChar(c: byte) | SleepMs(ms: nat)

  datatype Status = Running | Halted | Undefined

  datatype State = State(pc: nat, stack: seq<i32>, vars: seq<i32>, trace: seq<Event>, status: Status)

  function Bool(b: bool): i32 {
    if b then 1 else 0
  }

  /** Division truncating toward zero. */
  function TruncDiv(l: int, r: int): int
    requires r != 0
  {
    if l >= 0 then (if r > 0 then l / r else -(l / -r))
    else (if r > 0 then -(-l / r) else -l / -r)
  }

  function Apply(op: BinOp, l: i32, r: i32): i32 {
    match op
    case Add => S32(l + r)
    case Sub => S32(l - r)
    case Mul => S32(l * r)
    case Div => if r == 0 then 0 else S32(TruncDiv(l, r))
    case Mod => if r == 0 then 0 else S32(l - r * TruncDiv(l, r))
    case Lt => Bool(l < r)
    case Le => Bool(l <= r)
    case Gt => Bool(l > r)
    case Ge => Bool(l >= r)
    case Eq => Bool(l == r)
    case Ne => Bool(l != r)
  }

  /** The argument of the sleep call: the value sign-extended to 64 bits and
      read as unsigned. */
  function SleepArg(v: i32): nat {
    if v >= 0 then v else v + 0x1_0000_0000_0000_0000
  }

  function CharArg(v: i32): byte {
    v % 256
  }

  /** The string a C reader sees at the start of `s`. */
  function CString(s: seq<byte>): seq<byte> {
    if s == [] || s[0] == 0 then [] else [s[0]] + CString(s[1..])
  }

  function Top(stack: seq<i32>): i32 {
    if stack == [] then 0 else stack[|stack| - 1]
  }

  function Drop(stack: seq<i32>): seq<i32> {
    if stack == [] then [] else stack[..|stack| - 1]
  }

  /** Push, or leave the loop when the stack is full. */
  function Push(st: State, v: i32): State {
    if |st.stack| >= STACK_MAX then st.(status := Halted) else st.(stack := st.stack + [v])
  }

  function Goto(st: State, target: u32, size: nat): State {
    if target >= size then st.(status := Halted) else st.(pc := target)
  }

  /** The effect of one instruction; `st.pc` is already past it. */
  function Perform(i: Instr, size: nat, st: State): State
    requires |st.vars| == MAX_VARS
    ensures |Perform(i, size, st).vars| == MAX_VARS
  {
    match i
    case Puts(text) =>
      if 0 in text then st.(trace := st.trace + [PutString(CString(text))]) else st.(status := Undefined)
    case Sleep => st.(stack := Drop(st.stack), trace := st.trace + [SleepMs(SleepArg(Top(st.stack)))])
    case Exit(_) => st.(status := Halted)
    case Putc => st.(stack := Drop(st.stack), trace := st.trace + [PutChar(CharArg(Top(st.stack)))])
    case PushConst(v) => Push(st, v)
    case PushVar(slot) => if slot < MAX_VARS then Push(st, st.vars[slot]) else st.(status := Undefined)
    case StoreVar(slot) =>
      if slot < MAX_VARS then st.(stack := Drop(st.stack), vars := st.vars[slot := Top(st.stack)])
      else st.(status := Undefined)
    case Arith(op) =>
      var rest := Drop(st.stack);
      Push(st.(stack := Drop(rest)), Apply(op, Top(rest), Top(st.stack)))
    case Neg => Push(st.(stack := Drop(st.stack)), S32(0 - Top(st.stack)))
    case Not => Push(st.(stack := Drop(st.stack)), Bool(Top(st.stack) == 0))
    case LAnd =>
      var rest := Drop(st.stack);
      Push(st.(stack := Drop(rest)), Bool(Top(rest) != 0 && Top(st.stack) != 0))
    case LOr =>
      var rest := Drop(st.stack);
      Push(st.(stack := Drop(rest)), Bool(Top(rest) != 0 || Top(st.stack) != 0))
    case Jmp(t) => Goto(st, t, size)
    case Jz(t) =>
      // the range check comes before the test, and before the pop
      if t >= size then st.(status := Halted)
      else if Top(st.stack) == 0 then st.(pc := t, stack := Drop(st.stack))
      else st.(stack := Drop(st.stack))
    case Ret => st.(stack := Drop(st.stack), status := Halted)
    case Dup =>
      var v := Top(st.stack);
      var once := Push(st.(stack := Drop(st.stack)), v);
      if once.status != Running then once else Push(once, v)
    case Pop => st.(stack := Drop(st.stack))
  }

  function Step(code: seq<byte>, st: State): State
    requires |st.vars| == MAX_VARS
    ensures |Step(code, st).vars| == MAX_VARS
  {
    if st.status != Running then st
    else if st.pc >= |code| then st.(status := Halted)
    else
      match Fetch(code, st.pc)
      case Stop => st.(status := Halted)
      case Ins(i, next) => Perform(i, |code|, st.(pc := next))
  }

  function Run(code: seq<byte>, st: State, k: nat): State
    requires |st.vars| == MAX_VARS
    ensures |Run(code, st, k).vars| == MAX_VARS
    decreases k
  {
    if k == 0 then st else Run(code, Step(code, st), k - 1)
  }

  function Initial(): State {
    State(0, [], seq(MAX_VARS, _ => 0), [], Running)
  }

  lemma {:induction false} RunAdd(code: seq<byte>, st: State, a: nat, b: nat)
    requires |st.vars| == MAX_VARS
    ensures Run(code, Run(code, st, a), b) == Run(code, st, a + b)
    decreases a
  {
    if a > 0 {
      RunAdd(code, Step(code, st), a - 1, b);
    }
  }

  lemma {:induction false} StoppedStays(code: seq<byte>, st: State, k: nat)
    requires |st.vars| == MAX_VARS && st.status != Running
    ensures Run(code, st, k) == st
    decreases k
  {
    if k > 0 {
      StoppedStays(code, st, k - 1);
    }
  }
}
