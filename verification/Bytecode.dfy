/** The bytecode of the in-kernel C-subset compiler: instructions, their byte
    encoding, and the decoder the virtual machine uses.  Machine integers are
    modelled explicitly: `u32` operands, `i32` values with wrap-around. */
module Bytecode {
  import opened Basics

  type u32 = x: int | 0 <= x < 0x1_0000_0000
  type i32 = x: int | -0x8000_0000 <= x < 0x8000_0000

  /** Conversion to a 32-bit unsigned value. */
  function U32(x: int): u32 {
    x % 0x1_0000_0000
  }

  /** Conversion to a 32-bit two's-complement value. */
  function S32(x: int): i32 {
    var m := x % 0x1_0000_0000;
    if m < 0x8000_0000 then m else m - 0x1_0000_0000
  }

  /** Binary operators the compiler emits. */
  datatype BinOp = Add | Sub | Lt | Le | Gt | Ge | Eq | Ne | Mul | Div | Mod

  datatype Instr =
    | Puts(text: seq<byte>)   // the string with its terminator
    | Sleep
    | Exit(status: u32)
    | Putc
    | PushConst(v: i32)
    | PushVar(slot: byte)
    | StoreVar(slot: byte)
    | Arith(op: BinOp)
    | Neg
    | Not
    | LAnd
    | LOr
    | Jmp(target: u32)
    | Jz(target: u32)
    | Ret
    | Dup
    | Pop

  /** What an instruction must satisfy to have an encoding: the length field
      of a string is 16 bits wide. */
  predicate Encodable(i: Instr) {
    i.Puts? ==> 1 <= |i.text| <= 0x1_0000
  }

  function OpByte(op: BinOp): byte {
    match op
    case Add => 8
    case Sub => 9
    case Lt => 10
    case Le => 11
    case Gt => 12
    case Ge => 13
    case Eq => 14
    case Ne => 15
    case Mul => 20
    case Div => 21
    case Mod => 22
  }

  function U32Bytes(v: u32): seq<byte> {
    [v % 256, v / 256 % 256, v / 65536 % 256, v / 16777216]
  }

  function ReadU32(code: seq<byte>, p: nat): (v: u32)
    requires p + 4 <= |code|
  {
    code[p] as int + 256 * code[p+1] as int + 65536 * code[p+2] as int + 16777216 * code[p+3] as int
  }

  function EncodeInstr(i: Instr): seq<byte>
    requires Encodable(i)
  {
    match i
    case Puts(text) => [1, (|text| - 1) % 256, (|text| - 1) / 256] + text
    case Sleep => [2]
    case Exit(status) => [3] + U32Bytes(status)
    case Putc => [4]
    case PushConst(v) => [5] + U32Bytes(U32(v))
    case PushVar(slot) => [6, slot]
    case StoreVar(slot) => [7, slot]
    case Arith(op) => [OpByte(op)]
    case Neg => [16]
    case Not => [23]
    case LAnd => [24]
    case LOr => [25]
    case Jmp(t) => [17] + U32Bytes(t)
    case Jz(t) => [18] + U32Bytes(t)
    case Ret => [19]
    case Dup => [26]
    case Pop => [27]
  }

  function InstrSize(i: Instr): (n: nat)
    ensures n >= 1
  {
    match i
    case Puts(text) => 3 + |text|
    case PushConst(_) | Exit(_) | Jmp(_) | Jz(_) => 5
    case PushVar(_) | StoreVar(_) => 2
    case _ => 1
  }

  predicate AllEncodable(ins: seq<Instr>) {
    forall k :: 0 <= k < |ins| ==> Encodable(ins[k])
  }

  function Encode(ins: seq<Instr>): seq<byte>
    requires AllEncodable(ins)
  {
    if ins == [] then [] else EncodeInstr(ins[0]) + Encode(ins[1..])
  }

  function Size(ins: seq<Instr>): nat {
    if ins == [] then 0 else InstrSize(ins[0]) + Size(ins[1..])
  }

  /** One decoding attempt of the virtual machine: an instruction and the
      offset after it, or `Stop` where the interpreter loop is left because
      the opcode is unknown or an operand runs off the end. */
  datatype Fetched = Ins(i: Instr, next: nat) | Stop

  function Fetch(code: seq<byte>, pc: nat): Fetched
    requires pc < |code|
  {
    var p := pc + 1;
    match code[pc]
    case 1 =>
      if p + 2 > |code| then Stop
      else
        var len := code[p] as int + 256 * code[p+1] as int;
        if p + 2 + len + 1 > |code| then Stop
        else Ins(Puts(code[p+2..p+2+len+1]), p + 2 + len + 1)
    case 2 => Ins(Sleep, p)
    case 3 => if p + 4 > |code| then Stop else Ins(Exit(ReadU32(code, p)), p + 4)
    case 4 => Ins(Putc, p)
    case 5 => if p + 4 > |code| then Stop else Ins(PushConst(S32(ReadU32(code, p))), p + 4)
    case 6 => if p >= |code| then Stop else Ins(PushVar(code[p]), p + 1)
    case 7 => if p >= |code| then Stop else Ins(StoreVar(code[p]), p + 1)
    case 8 => Ins(Arith(Add), p)
    case 9 => Ins(Arith(Sub), p)
    case 10 => Ins(Arith(Lt), p)
    case 11 => Ins(Arith(Le), p)
    case 12 => Ins(Arith(Gt), p)
    case 13 => Ins(Arith(Ge), p)
    case 14 => Ins(Arith(Eq), p)
    case 15 => Ins(Arith(Ne), p)
    case 16 => Ins(Neg, p)
    case 17 => if p + 4 > |code| then Stop else Ins(Jmp(ReadU32(code, p)), p + 4)
    case 18 => if p + 4 > |code| then Stop else Ins(Jz(ReadU32(code, p)), p + 4)
    case 19 => Ins(Ret, p)
    case 20 => Ins(Arith(Mul), p)
    case 21 => Ins(Arith(Div), p)
    case 22 => Ins(Arith(Mod), p)
    case 23 => Ins(Not, p)
    case 24 => Ins(LAnd, p)
    case 25 => Ins(LOr, p)
    case 26 => Ins(Dup, p)
    case 27 => Ins(Pop, p)
    case _ => Stop
  }

  /** Linear disassembly from `pc`; `None` when the bytes are not a whole
      number of instructions. */
  function Decode(code: seq<byte>, pc: nat): Option<seq<Instr>>
    requires pc <= |code|
    decreases |code| - pc
  {
    if pc == |code| then Some([])
    else
      match Fetch(code, pc)
      case Stop => None
      case Ins(i, next) =>
        match Decode(code, next)
        case None => None
        case Some(rest) => Some([i] + rest)
  }

  // ----- the decoder inverts the encoder -----

  lemma U32RoundTrip(v: u32)
    ensures ReadU32(U32Bytes(v), 0) == v
  {
    var a := v as int / 256;
    var b := a / 256;
    var c := b / 256;
    assert v as int / 65536 == b && v as int / 16777216 == c && c < 256;
    assert v as int == v as int % 256 + 256 * (a % 256 + 256 * (b % 256 + 256 * c));
  }

  lemma EncodeInstrSize(i: Instr)
    requires Encodable(i)
    ensures |EncodeInstr(i)| == InstrSize(i)
  {
  }

  lemma {:induction false} FetchString(code: seq<byte>, pc: nat, text: seq<byte>)
    requires 1 <= |text| <= 0x1_0000
    requires pc + 3 + |text| <= |code|
    requires code[pc] == 1
    requires code[pc+1] as int + 256 * code[pc+2] as int == |text| - 1
    requires code[pc+3..pc+3+|text|] == text
    ensures Fetch(code, pc) == Ins(Puts(text), pc + 3 + |text|)
  {
  }

  /** The instructions with a 32-bit operand. */
  lemma {:induction false} FetchWord(code: seq<byte>, pc: nat, i: Instr, v: u32)
    requires pc + 5 <= |code|
    requires i == Exit(v) || i == Jmp(v) || i == Jz(v) || i == PushConst(S32(v))
    requires code[pc] == EncodeInstr(i)[0]
    requires code[pc+1..pc+5] == U32Bytes(v)
    ensures Fetch(code, pc) == Ins(i, pc + 5)
  {
    var w := code[pc+1..pc+5];
    assert w[0] == code[pc+1] && w[1] == code[pc+2] && w[2] == code[pc+3] && w[3] == code[pc+4];
    U32RoundTrip(v);
    assert ReadU32(code, pc + 1) == v;
  }

  lemma {:induction false} FetchShort(code: seq<byte>, pc: nat, i: Instr)
    requires InstrSize(i) <= 2
    requires |EncodeInstr(i)| == InstrSize(i)
    requires pc + InstrSize(i) <= |code|
    requires code[pc] == EncodeInstr(i)[0]
    requires InstrSize(i) == 2 ==> code[pc+1] == EncodeInstr(i)[1]
    ensures Fetch(code, pc) == Ins(i, pc + InstrSize(i))
  {
  }

  lemma {:induction false} FetchEncoded(code: seq<byte>, pc: nat, i: Instr)
    requires Encodable(i)
    requires pc + InstrSize(i) <= |code|
    requires code[pc..pc + InstrSize(i)] == EncodeInstr(i)
    ensures Fetch(code, pc) == Ins(i, pc + InstrSize(i))
  {
    hide Fetch;
    EncodeInstrSize(i);
    var b := code[pc..pc + InstrSize(i)];
    assert forall k :: 0 <= k < |b| ==> code[pc + k] == b[k];
    assert code[pc] == b[0];
    if i.Puts? {
      assert code[pc+1] == b[1] && code[pc+2] == b[2];
      assert code[pc+3..pc+3+|i.text|] == b[3..] == i.text;
      FetchString(code, pc, i.text);
    } else if InstrSize(i) == 5 {
      var v := match i case Exit(t) => t case Jmp(t) => t case Jz(t) => t case PushConst(c) => U32(c) case _ => 0;
      assert code[pc+1..pc+5] == b[1..] == U32Bytes(v);
      FetchWord(code, pc, i, v);
    } else {
      if InstrSize(i) == 2 {
        assert code[pc+1] == b[1];
      }
      FetchShort(code, pc, i);
    }
  }

  lemma {:induction false} EncodeAppend(a: seq<Instr>, b: seq<Instr>)
    requires AllEncodable(a) && AllEncodable(b)
    ensures AllEncodable(a + b)
    ensures Encode(a + b) == Encode(a) + Encode(b)
  {
    hide EncodeInstr;
    if a == [] {
      assert a + b == b;
    } else {
      EncodeAppend(a[1..], b);
      assert (a + b)[1..] == a[1..] + b;
    }
  }

  lemma {:induction false} SizeAppend(a: seq<Instr>, b: seq<Instr>)
    ensures Size(a + b) == Size(a) + Size(b)
  {
    if a == [] {
      assert a + b == b;
    } else {
      SizeAppend(a[1..], b);
      assert (a + b)[1..] == a[1..] + b;
    }
  }

  lemma SizeOne(i: Instr)
    ensures Size([i]) == InstrSize(i)
  {
    assert [i][1..] == [];
  }

  lemma {:induction false} EncodeSize(ins: seq<Instr>)
    requires AllEncodable(ins)
    ensures |Encode(ins)| == Size(ins)
  {
    if ins != [] {
      EncodeInstrSize(ins[0]);
      EncodeSize(ins[1..]);
    }
  }

  /** `ins` is what the decoder finds at offset `base` of `code`. */
  ghost predicate CodeAt(code: seq<byte>, base: int, ins: seq<Instr>)
    decreases |ins|
  {
    ins == [] ||
    (0 <= base < |code| &&
     Fetch(code, base) == Ins(ins[0], base + InstrSize(ins[0])) &&
     CodeAt(code, base + InstrSize(ins[0]), ins[1..]))
  }

  lemma {:induction false} CodeAtAppend(code: seq<byte>, base: int, a: seq<Instr>, b: seq<Instr>)
    ensures CodeAt(code, base, a + b) <==> CodeAt(code, base, a) && CodeAt(code, base + Size(a), b)
    decreases |a|
  {
    hide Fetch, InstrSize;
    if a == [] {
      assert a + b == b;
    } else {
      CodeAtAppend(code, base + InstrSize(a[0]), a[1..], b);
      assert (a + b)[1..] == a[1..] + b;
    }
  }

  lemma {:induction false} EncodedCodeAt(code: seq<byte>, base: nat, ins: seq<Instr>)
    requires AllEncodable(ins)
    requires base + Size(ins) <= |code|
    requires code[base..base + Size(ins)] == Encode(ins)
    ensures CodeAt(code, base, ins)
    decreases |ins|
  {
    hide EncodeInstr, Fetch;
    if ins != [] {
      var n := InstrSize(ins[0]);
      var b := code[base..base + Size(ins)];
      EncodeInstrSize(ins[0]);
      EncodeSize(ins[1..]);
      assert b[..n] == EncodeInstr(ins[0]) && b[n..] == Encode(ins[1..]);
      assert code[base..base + n] == b[..n];
      assert code[base + n..base + n + Size(ins[1..])] == b[n..];
      FetchEncoded(code, base, ins[0]);
      EncodedCodeAt(code, base + n, ins[1..]);
    }
  }

  lemma {:induction false} DecodeFrom(code: seq<byte>, base: nat, ins: seq<Instr>)
    requires CodeAt(code, base, ins) && base + Size(ins) == |code|
    ensures Decode(code, base) == Some(ins)
    decreases |ins|
  {
    hide Fetch;
    if ins != [] {
      DecodeFrom(code, base + InstrSize(ins[0]), ins[1..]);
      assert ins == [ins[0]] + ins[1..];
    }
  }

  /** Decoding the emitted bytes yields exactly the emitted instructions. */
  lemma {:induction false} DecodeEncode(ins: seq<Instr>)
    requires AllEncodable(ins)
    ensures Decode(Encode(ins), 0) == Some(ins)
  {
    EncodeSize(ins);
    EncodedCodeAt(Encode(ins), 0, ins);
    DecodeFrom(Encode(ins), 0, ins);
  }
}
