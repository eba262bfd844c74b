/** The interpreter loop: program counter, operand-stack array, variable array. */
module Machine {
  import opened Basics
  import opened Bytecode
  import opened Vm
  import opened Toycc

  class Machine {
    const code: seq<byte>
    const stack: array<i32>
    const vars: array<i32>
    var sp: nat
    var p: nat
    var trace: seq<Event>
    var status: Status

    ghost predicate Valid()
      reads this, stack, vars
    {
      stack.Length == STACK_MAX && vars.Length == MAX_VARS && stack != vars && sp <= STACK_MAX
    }

    /** The abstract machine state. */
    ghost function View(): State
      reads this, stack, vars
      requires Valid()
    {
      State(p, stack[..sp], vars[..], trace, status)
    }

    constructor (code: seq<byte>)
      ensures Valid() && this.code == code && View() == Initial()
      ensures fresh(stack) && fresh(vars)
    {
      this.code := code;
      this.stack := new i32[STACK_MAX];
      this.vars := new i32[MAX_VARS](_ => 0);
      this.sp := 0;
      this.p := 0;
      this.trace := [];
      this.status := Running;
      new;
      assert vars[..] == Initial().vars;
      assert stack[..0] == [];
    }

    /** Push, or leave the loop when the stack is full. */
    method PushValue(v: i32)
      requires Valid() && status == Running
      modifies this`sp, this`status, stack
      ensures Valid() && View() == Push(old(View()), v)
    {
      if sp >= STACK_MAX {
        status := Halted;
      } else {
        stack[sp] := v;
        sp := sp + 1;
      }
    }

    /** Pop, or 0 when the stack is empty. */
    method PopValue() returns (v: i32)
      requires Valid()
      modifies this`sp
      ensures Valid() && v == Top(old(View()).stack)
      ensures View() == old(View()).(stack := Drop(old(View()).stack))
    {
      if sp > 0 {
        sp := sp - 1;
        v := stack[sp];
      } else {
        v := 0;
      }
    }

    method RunBinary(i: Instr)
      requires Valid() && status == Running && (i.Arith? || i.LAnd? || i.LOr?)
      modifies this`sp, this`status, stack
      ensures Valid() && View() == Perform(i, |code|, old(View()))
    {
      var rhs := PopValue();
      var lhs := PopValue();
      match i {
        case Arith(op) => PushValue(Apply(op, lhs, rhs));
        case LAnd => PushValue(Bool(lhs != 0 && rhs != 0));
        case LOr => PushValue(Bool(lhs != 0 || rhs != 0));
      }
    }

    method RunUnary(i: Instr)
      requires Valid() && status == Running && (i.Not? || i.Neg? || i.Dup? || i.Pop? || i.Ret?)
      modifies this`sp, this`status, stack
      ensures Valid() && View() == Perform(i, |code|, old(View()))
    {
      var value := PopValue();
      match i {
        case Not => PushValue(Bool(value == 0));
        case Neg => PushValue(S32(0 - value as int));
        case Dup =>
          PushValue(value);
          if status == Running { PushValue(value); }
        case Pop =>
        case Ret => status := Halted;
      }
    }

    method RunCall(i: Instr)
      requires Valid() && status == Running && (i.Puts? || i.Putc? || i.Sleep?)
      modifies this`sp, this`status, this`trace
      ensures Valid() && View() == Perform(i, |code|, old(View()))
    {
      if i.Puts? {
        if 0 in i.text {
          trace := trace + [PutString(CString(i.text))];
        } else {
          status := Undefined;
        }
      } else {
        var value := PopValue();
        trace := trace + [if i.Putc? then PutChar(CharArg(value)) else SleepMs(SleepArg(value))];
      }
    }

    method RunMemory(i: Instr)
      requires Valid() && status == Running && (i.PushConst? || i.PushVar? || i.StoreVar?)
      modifies this`sp, this`status, stack, vars
      ensures Valid() && View() == Perform(i, |code|, old(View()))
    {
      if i.PushConst? {
        PushValue(i.v);
      } else if i.slot >= MAX_VARS {
        status := Undefined;
      } else if i.PushVar? {
        PushValue(vars[i.slot]);
      } else {
        var value := PopValue();
        vars[i.slot] := value;
      }
    }

    method RunJump(i: Instr)
      requires Valid() && status == Running && (i.Jmp? || i.Jz? || i.Exit?)
      modifies this`sp, this`status, this`p
      ensures Valid() && View() == Perform(i, |code|, old(View()))
    {
      if i.Exit? || i.target >= |code| {
        status := Halted;
      } else if i.Jmp? {
        p := i.target;
      } else {
        var value := PopValue();
        if value == 0 {
          p := i.target;
        }
      }
    }

    /** One round of the loop. */
    method StepOnce()
      requires Valid() && status == Running && p < |code|
      modifies this, stack, vars
      ensures Valid() && View() == Step(code, old(View()))
    {
      hide Fetch, Perform;
      match Fetch(code, p) {
        case Stop => status := Halted;
        case Ins(i, next) =>
          p := next;
          if i.Arith? || i.LAnd? || i.LOr? {
            RunBinary(i);
          } else if i.Not? || i.Neg? || i.Dup? || i.Pop? || i.Ret? {
            RunUnary(i);
          } else if i.Puts? || i.Putc? || i.Sleep? {
            RunCall(i);
          } else if i.PushConst? || i.PushVar? || i.StoreVar? {
            RunMemory(i);
          } else {
            RunJump(i);
          }
      }
    }
  }

  /** The task entry point, run for at most `limit` rounds: `done` tells
      whether the loop was left, and if so the calls made are those of the
      abstract run. */
  method Execute(file: seq<byte>, limit: nat) returns (done: bool, trace: seq<Event>)
    ensures Load(file).None? ==> done && trace == []
    ensures Load(file).Some? ==>
      var t := Run(Load(file).value, Initial(), limit);
      trace == t.trace && (done <==> t.status != Running)
  {
    if |file| < 8 || file[..4] != MAGIC {
      return true, [];
    }
    var code := file[8..];
    var m := new Machine(code);
    var n := 0;
    while n < limit && m.status == Running
      invariant n <= limit && m.Valid() && m.code == code && fresh(m) && fresh(m.stack) && fresh(m.vars)
      invariant Run(code, Initial(), limit) == Run(code, m.View(), limit - n)
      decreases limit - n
    {
      hide Fetch, Perform;
      if m.p < |code| {
        m.StepOnce();
      } else {
        m.status := Halted;
      }
      n := n + 1;
    }
    if m.status != Running {
      StoppedStays(code, m.View(), limit - n);
    }
    return m.status != Running, m.trace;
  }
}
