/** The compiler's output context: bytes are appended to a fixed buffer, jump
    operands are patched in place, and each open loop carries the positions
    its break and continue jumps must be patched at. */
module Emitter {
  import opened Basics
  import opened Bytecode
  import opened Source
  import opened CodeGen
  import opened SimulateStmt
  import opened Toycc
  import opened Patching
  import opened Placeholders

  const LOOP_MAX := 8
  const LOOP_PATCH_MAX := 32
  const TEMP_MAX := 512

  datatype LoopPatches = LoopPatches(breaks: seq<nat>, continues: seq<nat>)

  /** The patch lists after the jumps at `breaks` and `continues` were added to
      the innermost loop. */
  function AddSites(loops: seq<LoopPatches>, breaks: seq<nat>, continues: seq<nat>): seq<LoopPatches> {
    if loops == [] then []
    else
      var top := loops[|loops| - 1];
      loops[|loops| - 1 := LoopPatches(top.breaks + breaks, top.continues + continues)]
  }

  /** There is a loop to attach `b` breaks and `c` continues to, with room in
      its lists. */
  predicate HasRoom(loops: seq<LoopPatches>, b: nat, c: nat) {
    (b + c > 0 ==> loops != []) &&
    (loops != [] ==>
      (b > 0 ==> |loops[|loops| - 1].breaks| + b <= LOOP_PATCH_MAX) &&
      (c > 0 ==> |loops[|loops| - 1].continues| + c <= LOOP_PATCH_MAX))
  }

  /** The loops inside `s` respect the nesting depth, their patch lists do not
      overflow, and every step clause fits the side buffer. */
  predicate LoopsFit(s: Stmt, depth: nat)
    decreases s, 0
  {
    match s
    case Block(ss) => ListLoopsFit(ss, depth)
    case If(_, t) => LoopsFit(t, depth)
    case IfElse(_, t, e) => LoopsFit(t, depth) && LoopsFit(e, depth)
    case DoWhile(b, _) => BodyFits(b, depth)
    case While(_, b) => BodyFits(b, depth)
    case For(_, _, step, b) => StepSize(step) <= TEMP_MAX && BodyFits(b, depth)
    case _ => true
  }

  predicate BodyFits(b: Stmt, depth: nat)
    decreases b, 1
  {
    depth < LOOP_MAX && LoopsFit(b, depth + 1) &&
    SiteCount(b, true) <= LOOP_PATCH_MAX && SiteCount(b, false) <= LOOP_PATCH_MAX
  }

  predicate ListLoopsFit(ss: Stmts, depth: nat)
    decreases ss, 0
  {
    ss.Cons? ==> LoopsFit(ss.head, depth) && ListLoopsFit(ss.tail, depth)
  }

  /** Length field, characters and terminator of a string instruction. */
  function PutsData(text: seq<byte>): seq<byte> {
    [|text| % 256, |text| / 256 % 256] + text + [0]
  }

  lemma PutsBytes(text: seq<byte>)
    requires TextOk(text)
    ensures |PutsData(text)| == |text| + 3
    ensures EncodeInstr(Puts(text + [0])) == [1] + PutsData(text)
  {
    assert |text| / 256 % 256 == |text| / 256;
    assert [1, |text| % 256, |text| / 256] + (text + [0]) == [1] + PutsData(text);
  }

  class Context {
    const out: array<byte>
    var pos: nat
    var count: nat
    var loops: seq<LoopPatches>
    // how often the operand at `watched`, any position, has been filled in
    ghost const watched: int
    ghost var fills: nat

    ghost predicate Valid()
      reads this, out
    {
      pos <= out.Length
    }

    /** What has been emitted. */
    ghost function Done(): seq<byte>
      reads this, out
      requires Valid()
    {
      out[..pos]
    }

    constructor (out: array<byte>, pos: nat, ghost watched: int)
      requires pos <= out.Length
      ensures Valid() && this.out == out && this.pos == pos && count == 0 && loops == []
      ensures this.watched == watched && fills == 0
    {
      this.out := out;
      this.pos := pos;
      this.count := 0;
      this.loops := [];
      this.watched := watched;
      this.fills := 0;
    }

    function CodePos(): int
      reads this
    {
      pos - 8
    }

    method EmitU8(v: byte) returns (ok: bool)
      requires Valid()
      modifies this`pos, out
      ensures Valid()
      ensures ok <==> old(pos) + 1 <= out.Length
      ensures ok ==> pos == old(pos) + 1
      ensures ok ==> Done() == old(Done()) + [v]
    {
      if pos + 1 > out.Length {
        return false;
      }
      out[pos] := v;
      pos := pos + 1;
      return true;
    }

    method WriteU32(p: nat, v: u32)
      requires p + 4 <= out.Length
      modifies out
      ensures out[..] == old(out[..p]) + U32Bytes(v) + old(out[p + 4..])
    {
      var w := U32Bytes(v);
      FourBytes(v);
      out[p], out[p + 1], out[p + 2], out[p + 3] := w[0], w[1], w[2], w[3];
    }

    method EmitU32(v: u32) returns (ok: bool)
      requires Valid()
      modifies this`pos, out
      ensures Valid()
      ensures ok <==> old(pos) + 4 <= out.Length
      ensures ok ==> pos == old(pos) + 4
      ensures ok ==> Done() == old(Done()) + U32Bytes(v)
    {
      if pos + 4 > out.Length {
        return false;
      }
      FourBytes(v);
      WriteU32(pos, v);
      pos := pos + 4;
      assert out[..pos] == out[..][..pos];
      return true;
    }

    method EmitBytes(data: array<byte>, len: nat) returns (ok: bool)
      requires Valid() && len <= data.Length && data != out
      modifies this`pos, out
      ensures Valid()
      ensures ok <==> old(pos) + len <= out.Length
      ensures ok ==> pos == old(pos) + len
      ensures ok ==> Done() == old(Done()) + data[..len]
    {
      if pos + len > out.Length {
        return false;
      }
      MemCpy(pos, data[..len]);
      assert out[..pos + len] == out[..][..pos + len] == old(out[..pos]) + data[..len];
      pos := pos + len;
      return true;
    }

    method MemCpy(p: nat, data: seq<byte>)
      requires p + |data| <= out.Length
      modifies out
      ensures out[..] == old(out[..p]) + data + old(out[p + |data|..])
    {
      var i := 0;
      while i < |data|
        invariant 0 <= i <= |data|
        invariant out[..] == old(out[..p]) + data[..i] + old(out[p + i..])
      {
        out[p + i] := data[i];
        i := i + 1;
      }
      assert data[..|data|] == data;
    }

    method EmitOp(op: byte) returns (ok: bool)
      requires Valid()
      modifies this`pos, this`count, out
      ensures Valid()
      ensures ok <==> old(pos) + 1 <= out.Length
      ensures ok ==> pos == old(pos) + 1
      ensures ok ==> Done() == old(Done()) + [op] && count == old(count) + 1
    {
      count := count + 1;
      ok := EmitU8(op);
    }

    /** An instruction without operand. */
    method EmitPlain(i: Instr) returns (ok: bool)
      requires Valid() && Encodable(i) && InstrSize(i) == 1
      modifies this`pos, this`count, out
      ensures Valid()
      ensures ok <==> old(pos) + 1 <= out.Length
      ensures ok ==> pos == old(pos) + 1
      ensures ok ==> Done() == old(Done()) + EncodeInstr(i) && count == old(count) + 1
    {
      EncodeInstrSize(i);
      ok := EmitOp(EncodeInstr(i)[0]);
      assert EncodeInstr(i) == [EncodeInstr(i)[0]];
    }

    method EmitPuts(text: seq<byte>) returns (ok: bool)
      requires Valid() && TextOk(text)
      modifies this`pos, this`count, out
      ensures Valid()
      ensures ok <==> old(pos) + |text| + 4 <= out.Length
      ensures ok ==> pos == old(pos) + |text| + 4
      ensures ok ==> Done() == old(Done()) + EncodeInstr(Puts(text + [0])) && count == old(count) + 1
    {
      hide EncodeInstr, TextOk;
      ok := EmitOp(1);
      if !ok || pos + 2 + |text| + 1 > out.Length {
        return false;
      }
      PutsBytes(text);
      var data := PutsData(text);
      ghost var done := Done();
      MemCpy(pos, data);
      assert out[..pos + |data|] == out[..][..pos + |data|] == done + data;
      pos := pos + |data|;
      assert done + data == old(Done()) + ([1] + data);
    }

    method EmitPushConst(v: i32) returns (ok: bool)
      requires Valid()
      modifies this`pos, this`count, out
      ensures Valid()
      ensures ok <==> old(pos) + 5 <= out.Length
      ensures ok ==> pos == old(pos) + 5
      ensures ok ==> Done() == old(Done()) + EncodeInstr(PushConst(v)) && count == old(count) + 1
    {
      ok := EmitOp(5);
      if ok {
        ok := EmitU32(U32(v));
        assert ok ==> Done() == old(Done()) + ([5] + U32Bytes(U32(v)));
      }
    }

    method EmitPushVar(slot: byte) returns (ok: bool)
      requires Valid()
      modifies this`pos, this`count, out
      ensures Valid()
      ensures ok <==> old(pos) + 2 <= out.Length
      ensures ok ==> pos == old(pos) + 2
      ensures ok ==> Done() == old(Done()) + EncodeInstr(PushVar(slot)) && count == old(count) + 1
    {
      ok := EmitOp(6);
      if ok {
        ok := EmitU8(slot);
      }
    }

    method EmitStoreVar(slot: byte) returns (ok: bool)
      requires Valid()
      modifies this`pos, this`count, out
      ensures Valid()
      ensures ok <==> old(pos) + 2 <= out.Length
      ensures ok ==> pos == old(pos) + 2
      ensures ok ==> Done() == old(Done()) + EncodeInstr(StoreVar(slot)) && count == old(count) + 1
    {
      ok := EmitOp(7);
      if ok {
        ok := EmitU8(slot);
      }
    }

    /** A jump whose operand is not known yet; `patchPos` is where it goes. */
    method EmitJump(j: Instr) returns (ok: bool, patchPos: nat)
      requires Valid() && (j == Jmp(0) || j == Jz(0))
      modifies this`pos, this`count, out
      ensures Valid()
      ensures ok <==> old(pos) + 5 <= out.Length
      ensures ok ==> pos == old(pos) + 5
      ensures ok ==> Done() == old(Done()) + EncodeInstr(j) && count == old(count) + 1
      ensures ok ==> patchPos == old(pos) + 1
    {
      patchPos := 0;
      ok := EmitOp(if j.Jmp? then 17 else 18);
      if ok {
        patchPos := pos;
        ok := EmitU32(0);
        assert ok ==> Done() == old(Done()) + ([if j.Jmp? then 17 else 18] + U32Bytes(0));
      }
    }

    /** A jump to a known target. */
    method EmitJumpTo(t: u32) returns (ok: bool)
      requires Valid()
      modifies this`pos, this`count, out
      ensures Valid()
      ensures ok <==> old(pos) + 5 <= out.Length
      ensures ok ==> pos == old(pos) + 5
      ensures ok ==> Done() == old(Done()) + EncodeInstr(Jmp(t)) && count == old(count) + 1
    {
      ok := EmitOp(17);
      if ok {
        ok := EmitU32(t);
        assert ok ==> Done() == old(Done()) + ([17] + U32Bytes(t));
      }
    }

    method PatchU32(p: nat, v: u32)
      requires Valid() && p + 4 <= pos
      modifies out, this`fills
      ensures Done() == Patched(old(Done()), p, v)
      ensures fills == old(fills) + Hit(p, watched)
    {
      fills := fills + Hit(p, watched);
      WriteU32(p, v);
      assert out[..pos] == out[..][..pos];
      assert old(out[..])[..pos] == old(out[..pos]);
      FourBytes(v);
    }

    method PatchLoopList(sites: seq<nat>, v: u32)
      requires Valid() && InBounds(sites, Done())
      modifies out, this`fills
      ensures Done() == PatchAll(old(Done()), sites, v)
      ensures fills == old(fills) + Listed(sites, watched)
    {
      var i := 0;
      assert sites[0..] == sites;
      while i < |sites|
        invariant 0 <= i <= |sites|
        invariant InBounds(sites[i..], Done())
        invariant PatchAll(old(Done()), sites, v) == PatchAll(Done(), sites[i..], v)
        invariant old(fills) + Listed(sites, watched) == fills + Listed(sites[i..], watched)
      {
        assert sites[i..][0] == sites[i] && sites[i..][1..] == sites[i + 1..];
        PatchU32(sites[i], v);
        i := i + 1;
      }
    }

    method PushLoop() returns (ok: bool)
      modifies this`loops
      ensures ok <==> |old(loops)| < LOOP_MAX
      ensures loops == if ok then old(loops) + [LoopPatches([], [])] else old(loops)
    {
      if |loops| >= LOOP_MAX {
        return false;
      }
      loops := loops + [LoopPatches([], [])];
      return true;
    }

    method PopLoop()
      modifies this`loops
      ensures loops == if |old(loops)| > 0 then old(loops)[..|old(loops)| - 1] else old(loops)
    {
      if |loops| > 0 {
        loops := loops[..|loops| - 1];
      }
    }

    /** Record a break or continue jump in the innermost loop. */
    method AddLoopPatch(p: nat, brk: bool) returns (ok: bool)
      requires loops != []
      modifies this`loops
      ensures ok <==> HasRoom(old(loops), if brk then 1 else 0, if brk then 0 else 1)
      ensures ok ==> loops == AddSites(old(loops), if brk then [p] else [], if brk then [] else [p])
    {
      var top := loops[|loops| - 1];
      var list := if brk then top.breaks else top.continues;
      if |list| >= LOOP_PATCH_MAX {
        return false;
      }
      assert top.breaks + [] == top.breaks && top.continues + [] == top.continues;
      loops := loops[|loops| - 1 :=
        if brk then top.(breaks := top.breaks + [p]) else top.(continues := top.continues + [p])];
      return true;
    }

    /** Fill in the operand of a jump that stands between `pre` and `post`. */
    method FillJump(ghost pre: seq<byte>, ghost j: Instr, ghost post: seq<byte>, p: nat, v: u32)
      requires Valid() && (j.Jmp? || j.Jz?)
      requires Done() == pre + EncodeInstr(j) + post && p == |pre| + 1
      modifies out, this`fills
      ensures Done() == pre + EncodeInstr(Retarget(j, v)) + post
      ensures fills == old(fills) + Hit(p, watched)
    {
      PatchJump(pre, j, post, v);
      PatchU32(p, v);
    }

    // ----- expressions -----

    method EmitExpr(e: Expr) returns (ok: bool)
      requires Valid()
      modifies this`pos, this`count, this`fills, out
      ensures Valid()
      ensures ok <==> old(pos) + ExprSize(e) <= out.Length
      ensures ok ==> pos == old(pos) + ExprSize(e)
      ensures ok ==> Done() == old(Done()) + ExprBytes(e, old(CodePos()))
      ensures ok ==> count == old(count) + |GenExpr(e, old(CodePos()))|
      ensures ok ==> fills == old(fills) + FillsE(e, old(pos), watched)
      decreases e, 1
    {
      hide EncodeInstr, GenExpr, ExprBytes;
      ghost var base := CodePos();
      if e.AndAlso? {
        ok := EmitAnd(e);
      } else if e.OrElse? {
        ok := EmitOr(e);
      } else if e.Bin? {
        ok := EmitBin(e);
      } else if e.Update? {
        ok := EmitUpdate(e);
      } else if e.LogNot? || e.Minus? || e.Assign? {
        ok := EmitUnary(e);
      } else {
        ok := EmitLeaf(e);
      }
    }

    method EmitLeaf(e: Expr) returns (ok: bool)
      requires Valid() && Leaf(e)
      modifies this`pos, this`count, out
      ensures Valid()
      ensures ok <==> old(pos) + ExprSize(e) <= out.Length
      ensures ok ==> pos == old(pos) + ExprSize(e)
      ensures ok ==> Done() == old(Done()) + ExprBytes(e, old(CodePos()))
      ensures ok ==> count == old(count) + |GenExpr(e, old(CodePos()))|
    {
      hide EncodeInstr, Encode;
      ghost var base := CodePos();
      match e {
        case Num(v) =>
          ok := EmitPushConst(v);
          EncodeOne(PushConst(v));
        case Var(x) =>
          ok := EmitPushVar(x);
          EncodeOne(PushVar(x));
        case PostInc(x) => ok := EmitPost(x, Add);
        case PostDec(x) => ok := EmitPost(x, Sub);
        case PreInc(x) => ok := EmitPre(x, Add);
        case PreDec(x) => ok := EmitPre(x, Sub);
      }
    }

    method EmitPost(x: byte, op: BinOp) returns (ok: bool)
      requires Valid()
      modifies this`pos, this`count, out
      ensures Valid()
      ensures ok <==> old(pos) + 11 <= out.Length
      ensures ok ==> pos == old(pos) + 11
      ensures AllEncodable([PushVar(x), Dup, PushConst(1), Arith(op), StoreVar(x)])
      ensures ok ==> count == old(count) + 5
      ensures ok ==> Done() == old(Done()) + Encode([PushVar(x), Dup, PushConst(1), Arith(op), StoreVar(x)])
    {
      hide EncodeInstr, Encode;
      Encode5(PushVar(x), Dup, PushConst(1), Arith(op), StoreVar(x));
      ok := EmitPushVar(x);
      if ok { ok := EmitPlain(Dup); }
      if ok { ok := EmitPushConst(1); }
      if ok { ok := EmitPlain(Arith(op)); }
      if ok { ok := EmitStoreVar(x); }
      ghost var p := old(Done());
      FiveParts(p, EncodeInstr(PushVar(x)), EncodeInstr(Dup), EncodeInstr(PushConst(1)), EncodeInstr(Arith(op)),
        EncodeInstr(StoreVar(x)));
    }

    method EmitPre(x: byte, op: BinOp) returns (ok: bool)
      requires Valid()
      modifies this`pos, this`count, out
      ensures Valid()
      ensures ok <==> old(pos) + 11 <= out.Length
      ensures ok ==> pos == old(pos) + 11
      ensures AllEncodable([PushVar(x), PushConst(1), Arith(op), Dup, StoreVar(x)])
      ensures ok ==> count == old(count) + 5
      ensures ok ==> Done() == old(Done()) + Encode([PushVar(x), PushConst(1), Arith(op), Dup, StoreVar(x)])
    {
      hide EncodeInstr, Encode;
      Encode5(PushVar(x), PushConst(1), Arith(op), Dup, StoreVar(x));
      ok := EmitPushVar(x);
      if ok { ok := EmitPushConst(1); }
      if ok { ok := EmitPlain(Arith(op)); }
      if ok { ok := EmitPlain(Dup); }
      if ok { ok := EmitStoreVar(x); }
      ghost var p := old(Done());
      FiveParts(p, EncodeInstr(PushVar(x)), EncodeInstr(PushConst(1)), EncodeInstr(Arith(op)), EncodeInstr(Dup),
        EncodeInstr(StoreVar(x)));
    }

    method EmitUnary(e: Expr) returns (ok: bool)
      requires Valid() && (e.LogNot? || e.Minus? || e.Assign?)
      modifies this`pos, this`count, this`fills, out
      ensures Valid()
      ensures ok <==> old(pos) + ExprSize(e) <= out.Length
      ensures ok ==> pos == old(pos) + ExprSize(e)
      ensures ok ==> Done() == old(Done()) + ExprBytes(e, old(CodePos()))
      ensures ok ==> count == old(count) + |GenExpr(e, old(CodePos()))|
      ensures ok ==> fills == old(fills) + FillsE(e, old(pos), watched)
      decreases e, 0
    {
      hide EncodeInstr, GenExpr, Encode, ExprBytes;
      ghost var base := CodePos();
      ghost var p := Done();
      SplitUnary(e, base);
      ExprBytesSize(e.e, base);
      ok := EmitExpr(e.e);
      if ok {
        if e.Assign? {
          Encode2(Dup, StoreVar(e.x));
          ok := EmitPlain(Dup);
          if ok { ok := EmitStoreVar(e.x); }
          assert ok ==> Done() == p + (ExprBytes(e.e, base) + (EncodeInstr(Dup) + EncodeInstr(StoreVar(e.x))));
        } else {
          var i := if e.LogNot? then Not else Neg;
          EncodeOne(i);
          ok := EmitPlain(i);
          assert ok ==> Done() == p + (ExprBytes(e.e, base) + EncodeInstr(i));
        }
      }
    }

    method EmitBin(e: Expr) returns (ok: bool)
      requires Valid() && e.Bin?
      modifies this`pos, this`count, this`fills, out
      ensures Valid()
      ensures ok <==> old(pos) + ExprSize(e) <= out.Length
      ensures ok ==> pos == old(pos) + ExprSize(e)
      ensures ok ==> Done() == old(Done()) + ExprBytes(e, old(CodePos()))
      ensures ok ==> count == old(count) + |GenExpr(e, old(CodePos()))|
      ensures ok ==> fills == old(fills) + FillsE(e, old(pos), watched)
      decreases e, 0
    {
      hide EncodeInstr, GenExpr, Encode, ExprBytes;
      ghost var base := CodePos();
      ghost var right := base + ExprSize(e.l);
      ghost var p := Done();
      SplitBin(e, base);
      ExprBytesSize(e.l, base);
      ExprBytesSize(e.r, right);
      ok := EmitExpr(e.l);
      if ok { ok := EmitExpr(e.r); }
      if ok { ok := EmitPlain(Arith(e.op)); }
      assert ok ==> Done() == p + (ExprBytes(e.l, base) + ExprBytes(e.r, right) + EncodeInstr(Arith(e.op)));
    }

    method EmitUpdate(e: Expr) returns (ok: bool)
      requires Valid() && e.Update?
      modifies this`pos, this`count, this`fills, out
      ensures Valid()
      ensures ok <==> old(pos) + ExprSize(e) <= out.Length
      ensures ok ==> pos == old(pos) + ExprSize(e)
      ensures ok ==> Done() == old(Done()) + ExprBytes(e, old(CodePos()))
      ensures ok ==> count == old(count) + |GenExpr(e, old(CodePos()))|
      ensures ok ==> fills == old(fills) + FillsE(e, old(pos), watched)
      decreases e, 0
    {
      hide EncodeInstr, GenExpr, Encode, ExprBytes;
      ghost var base := CodePos();
      ghost var p := Done();
      SplitUpdate(e, base);
      ExprBytesSize(e.e, base + 2);
      ok := EmitPushVar(e.x);
      if ok { ok := EmitExpr(e.e); }
      if ok { ok := EmitPlain(Arith(e.op)); }
      if ok { ok := EmitPlain(Dup); }
      if ok { ok := EmitStoreVar(e.x); }
      FiveParts(p, EncodeInstr(PushVar(e.x)), ExprBytes(e.e, base + 2), EncodeInstr(Arith(e.op)), EncodeInstr(Dup),
        EncodeInstr(StoreVar(e.x)));
    }

    /** The ending `&&` and `||` share: turn the right operand into a truth
        value.  `no` is the offset of the final `push 0`; the jump past it is
        still to be filled in at `endPatch`. */
    method EmitTruth() returns (ok: bool, endPatch: nat, no: u32)
      requires Valid()
      modifies this`pos, this`count, this`fills, out
      ensures Valid()
      ensures ok <==> old(pos) + 20 <= out.Length
      ensures no == U32(old(CodePos()) + 15)
      ensures ok ==> pos == old(pos) + 20 && endPatch == old(pos) + 11 && count == old(count) + 4
      ensures ok ==> Done() == old(Done()) + Truth(no, 0)
      ensures ok ==> fills == old(fills) + Hit(old(pos) + 1, watched)
    {
      hide EncodeInstr, U32;
      ghost var p := Done();
      ghost var jz, c1, jmp := EncodeInstr(Jz(0)), EncodeInstr(PushConst(1)), EncodeInstr(Jmp(0));
      var falsePatch;
      no := U32(CodePos() + 15);
      endPatch := 0;
      ok, falsePatch := EmitJump(Jz(0));
      if ok { ok := EmitPushConst(1); }
      if ok { ok, endPatch := EmitJump(Jmp(0)); }
      if ok {
        assert Done() == p + jz + (c1 + jmp);
        FillJump(p, Jz(0), c1 + jmp, falsePatch, U32(CodePos()));
        SameLength(Jz(0), no);
        ok := EmitPushConst(0);
        TruthJoin(p, no);
      }
    }

    method EmitAnd(e: Expr) returns (ok: bool)
      requires Valid() && e.AndAlso?
      modifies this`pos, this`count, this`fills, out
      ensures Valid()
      ensures ok <==> old(pos) + ExprSize(e) <= out.Length
      ensures ok ==> pos == old(pos) + ExprSize(e)
      ensures ok ==> Done() == old(Done()) + ExprBytes(e, old(CodePos()))
      ensures ok ==> count == old(count) + |GenExpr(e, old(CodePos()))|
      ensures ok ==> fills == old(fills) + FillsE(e, old(pos), watched)
      decreases e, 0
    {
      hide EncodeInstr, GenExpr, Encode, ExprBytes, U32, Patched, Truth, ExprSize, FillsE, Hit;
      LogicSize(e);
      LogicFills(e, pos, watched);
      ghost var base := CodePos();
      ghost var rhs := RightBase(e, base);
      ghost var p := Done();
      ghost var l, r := ExprBytes(e.l, base), ExprBytes(e.r, rhs);
      var rhsPatch, endPatch, no := 0, 0, 0;
      ok := EmitExpr(e.l);
      if ok { ok, rhsPatch := EmitJump(Jz(0)); }
      if ok { ok := EmitExpr(e.r); }
      if ok { ok, endPatch, no := EmitTruth(); }
      if ok {
        var end := U32(CodePos());
        assert Done() == p + l + EncodeInstr(Jz(0)) + r + Truth(no, 0);
        ExprBytesSize(e.l, base);
        ExprBytesSize(e.r, rhs);
        TwoPatches(p + l, Jz(0), r, no, no, end);
        PatchU32(rhsPatch, no);
        PatchU32(endPatch, end);
        AndWhole(e, base, p, no, end);
      }
    }

    method EmitOr(e: Expr) returns (ok: bool)
      requires Valid() && e.OrElse?
      modifies this`pos, this`count, this`fills, out
      ensures Valid()
      ensures ok <==> old(pos) + ExprSize(e) <= out.Length
      ensures ok ==> pos == old(pos) + ExprSize(e)
      ensures ok ==> Done() == old(Done()) + ExprBytes(e, old(CodePos()))
      ensures ok ==> count == old(count) + |GenExpr(e, old(CodePos()))|
      ensures ok ==> fills == old(fills) + FillsE(e, old(pos), watched)
      decreases e, 0
    {
      hide EncodeInstr, GenExpr, Encode, ExprBytes, U32, Patched, Truth, FillsE, Hit;
      LogicFills(e, pos, watched);
      ghost var base := CodePos();
      ghost var rhs := RightBase(e, base);
      ghost var p := Done();
      ghost var l, r := ExprBytes(e.l, base), ExprBytes(e.r, rhs);
      var lhsTruePatch, rhsTruePatch, no := 0, 0, 0;
      ok, lhsTruePatch := EmitOrLeft(e);
      if ok { ok := EmitExpr(e.r); }
      if ok { ok, rhsTruePatch, no := EmitTruth(); }
      if ok {
        var end := U32(CodePos());
        ghost var q := p + OrLeft(l, rhs);
        assert Done() == q + EncodeInstr(Jmp(0)) + r + Truth(no, 0);
        ExprBytesSize(e.r, rhs);
        TwoPatches(q, Jmp(0), r, end, no, end);
        PatchU32(lhsTruePatch, end);
        PatchU32(rhsTruePatch, end);
        OrWhole(e, base, p, no, end);
      }
    }

    /** The left operand of `||` and its exit when it is true. */
    method EmitOrLeft(e: Expr) returns (ok: bool, lhsTruePatch: nat)
      requires Valid() && e.OrElse?
      modifies this`pos, this`count, this`fills, out
      ensures Valid()
      ensures ok <==> old(pos) + ExprSize(e.l) + 15 <= out.Length
      ensures ok ==> pos == old(pos) + ExprSize(e.l) + 15 && lhsTruePatch == pos - 4
      ensures ok ==> count == old(count) + |GenExpr(e.l, old(CodePos()))| + 3
      ensures var l := ExprBytes(e.l, old(CodePos()));
        |OrLeft(l, RightBase(e, old(CodePos())))| == ExprSize(e.l) + 10 &&
        (ok ==> Done() == old(Done()) + OrLeft(l, RightBase(e, old(CodePos()))) + EncodeInstr(Jmp(0)))
      ensures ok ==> fills == old(fills) + FillsE(e.l, old(pos), watched) + Hit(old(pos) + ExprSize(e.l) + 1, watched)
      decreases e, 0, 0
    {
      hide EncodeInstr, GenExpr, ExprBytes, U32, Patched, FillsE, Hit;
      ghost var base := CodePos();
      ghost var p := Done();
      ghost var l, c1, jmp := ExprBytes(e.l, base), EncodeInstr(PushConst(1)), EncodeInstr(Jmp(0));
      ExprBytesSize(e.l, base);
      SameLength(Jz(0), U32(RightBase(e, base)));
      ConstBytes(1);
      var evalRhsPatch := 0;
      lhsTruePatch := 0;
      ok := EmitExpr(e.l);
      if ok { ok, evalRhsPatch := EmitJump(Jz(0)); }
      if ok { ok := EmitPushConst(1); }
      if ok { ok, lhsTruePatch := EmitJump(Jmp(0)); }
      if ok {
        MidParts(p + l, EncodeInstr(Jz(0)), c1, jmp);
        FillJump(p + l, Jz(0), c1 + jmp, evalRhsPatch, U32(CodePos()));
        OrLeftParts(p, l, RightBase(e, base), jmp);
      }
    }

    // ----- statements -----

    method EmitExprThen(e: Expr, i: Instr) returns (ok: bool)
      requires Valid() && Encodable(i) && InstrSize(i) == 1
      modifies this`pos, this`count, this`fills, out
      ensures Valid()
      ensures ok <==> old(pos) + ExprSize(e) + 1 <= out.Length
      ensures ok ==> pos == old(pos) + ExprSize(e) + 1
      ensures AllEncodable(GenExpr(e, old(CodePos())) + [i])
      ensures ok ==> Done() == old(Done()) + Encode(GenExpr(e, old(CodePos())) + [i])
      ensures ok ==> count == old(count) + |GenExpr(e, old(CodePos())) + [i]|
      ensures ok ==> fills == old(fills) + FillsE(e, old(pos), watched)
    {
      hide GenExpr, Encode, EncodeInstr, ExprBytes;
      ghost var base := CodePos();
      ghost var p := Done();
      SplitSnoc(e, i, base);
      ok := EmitExpr(e);
      if ok {
        ok := EmitPlain(i);
        assert ok ==> Done() == p + (ExprBytes(e, base) + EncodeInstr(i));
      }
    }

    method EmitDecls(ds: Decls) returns (ok: bool)
      requires Valid()
      modifies this`pos, this`count, this`fills, out
      ensures Valid()
      ensures ok <==> old(pos) + DeclsSize(ds) <= out.Length
      ensures ok ==> pos == old(pos) + DeclsSize(ds)
      ensures ok ==> Done() == old(Done()) + DeclsBytes(ds, old(CodePos()))
      ensures ok ==> count == old(count) + |GenDecls(ds, old(CodePos()))|
      ensures ok ==> fills == old(fills) + FillsD(ds, old(pos), watched)
      decreases ds
    {
      hide GenExpr, Encode, EncodeInstr, ExprBytes, ExprSize;
      ghost var base := CodePos();
      ghost var p := Done();
      match ds {
        case NoDecls =>
          ok := true;
          assert Encode([]) == [] by { NoBytes(); }
          assert p + [] == p;
        case Declare(_, None, rest) =>
          ok := EmitDecls(rest);
        case Declare(x, Some(e), rest) =>
          SplitDecl(ds, base);
          ok := EmitExpr(e);
          if ok { ok := EmitStoreVar(x); }
          if ok {
            ok := EmitDecls(rest);
            ThreeParts(p, ExprBytes(e, base), EncodeInstr(StoreVar(x)), DeclsBytes(rest, base + ExprSize(e) + 2));
          }
      }
    }

    method EmitClause(c: Clause) returns (ok: bool)
      requires Valid()
      modifies this`pos, this`count, this`fills, out
      ensures Valid()
      ensures ok <==> old(pos) + ClauseSize(c) <= out.Length
      ensures ok ==> pos == old(pos) + ClauseSize(c)
      ensures ok ==> Done() == old(Done()) + ClauseBytes(c, old(CodePos()))
      ensures ok ==> count == old(count) + |GenClause(c, old(CodePos()))|
      ensures ok ==> fills == old(fills) + FillsC(c, old(pos), watched)
    {
      hide GenExpr, Encode, EncodeInstr, ExprBytes, ExprSize;
      match c {
        case NoClause =>
          ok := true;
          assert Encode([]) == [] by { NoBytes(); }
          assert Done() + [] == Done();
        case DeclClause(ds) => ok := EmitDecls(ds);
        case ExprClause(e) => ok := EmitExprThen(e, Pop);
      }
    }

    /** `saw` records that a return statement was met. */
    method EmitStmt(s: Stmt, saw: bool) returns (ok: bool, saw': bool)
      requires Valid() && StmtOk(s)
      modifies this`pos, this`count, this`fills, this`loops, out
      ensures Valid()
      ensures ok <==> Accepts(s, old(pos), out.Length, old(loops))
      ensures ok ==> Emitted(s, old(pos), old(Done()), old(count), old(loops), old(fills))
      ensures ok ==> (saw' <==> saw || HasReturn(s))
      decreases s, 2
    {
      hide StmtBytes, GenStmt, AddSites, HasRoom, LoopsFit, Sites, SiteCount;
      if s.Block? {
        ok, saw' := EmitBlock(s, saw);
      } else if s.If? || s.IfElse? {
        ok, saw' := EmitBranch(s, saw);
      } else if s.While? {
        ok, saw' := EmitWhile(s, saw);
      } else if s.DoWhile? {
        ok, saw' := EmitDoWhile(s, saw);
      } else if s.For? {
        ok, saw' := EmitFor(s, saw);
      } else if s.Break? || s.Continue? {
        ok := EmitLeave(s);
        saw' := saw;
      } else if s.Empty? || s.DeclStmt? || s.PutsStmt? {
        ok := EmitBasic(s);
        saw' := saw;
      } else {
        ok := EmitExprStmt(s);
        saw' := saw || s.Return?;
      }
    }

    /** The state after `s` was emitted from a context with the given contents. */
    ghost predicate Emitted(s: Stmt, at: nat, done: seq<byte>, n: nat, before: seq<LoopPatches>, filled: nat)
      reads this, out
      requires Valid() && StmtOk(s)
    {
      pos == at + StmtSize(s) &&
      Done() == done + StmtBytes(s, at - 8, 0, 0) &&
      count == n + |GenStmt(s, at - 8, 0, 0)| &&
      loops == AddSites(before, Sites(s, at, true), Sites(s, at, false)) &&
      fills == filled + Fills(s, at, watched)
    }

    method EmitBasic(s: Stmt) returns (ok: bool)
      requires Valid() && StmtOk(s)
      requires s.Empty? || s.DeclStmt? || s.PutsStmt?
      modifies this`pos, this`count, this`fills, out
      ensures Valid()
      ensures ok <==> Accepts(s, old(pos), out.Length, old(loops))
      ensures ok ==> Emitted(s, old(pos), old(Done()), old(count), old(loops), old(fills))
    {
      hide GenExpr, Encode, EncodeInstr, ExprBytes, ExprSize, FillsE, FillsD;
      NoSites(loops);
      match s {
        case Empty =>
          ok := true;
          assert Encode([]) == [] by { NoBytes(); }
          assert Done() + [] == Done();
        case DeclStmt(ds) => ok := EmitDecls(ds);
        case PutsStmt(text) =>
          EncodableStmt(s, 0, 0, 0);
          EncodeOne(Puts(text + [0]));
          ok := EmitPuts(text);
      }
    }

    method EmitExprStmt(s: Stmt) returns (ok: bool)
      requires Valid() && StmtOk(s)
      requires s.PutcStmt? || s.SleepStmt? || s.Return? || s.ExprStmt?
      modifies this`pos, this`count, this`fills, out
      ensures Valid()
      ensures ok <==> Accepts(s, old(pos), out.Length, old(loops))
      ensures ok ==> Emitted(s, old(pos), old(Done()), old(count), old(loops), old(fills))
    {
      hide GenExpr, Encode, EncodeInstr, ExprBytes, ExprSize, FillsE;
      NoSites(loops);
      match s {
        case PutcStmt(e) => ok := EmitExprThen(e, Putc);
        case SleepStmt(e) => ok := EmitExprThen(e, Sleep);
        case Return(e) => ok := EmitExprThen(e, Ret);
        case ExprStmt(e) => ok := EmitExprThen(e, Pop);
      }
    }

    method EmitLeave(s: Stmt) returns (ok: bool)
      requires Valid() && (s.Break? || s.Continue?)
      modifies this`pos, this`count, this`loops, out
      ensures Valid()
      ensures ok <==> Accepts(s, old(pos), out.Length, old(loops))
      ensures ok ==> Emitted(s, old(pos), old(Done()), old(count), old(loops), old(fills))
    {
      hide Encode, EncodeInstr;
      if loops == [] {
        return false;
      }
      EncodeOne(Jmp(0));
      var patchPos;
      ok, patchPos := EmitJump(Jmp(0));
      if ok {
        ok := AddLoopPatch(patchPos, s.Break?);
      }
    }

    method EmitBlock(s: Stmt, saw: bool) returns (ok: bool, saw': bool)
      requires Valid() && StmtOk(s) && s.Block?
      modifies this`pos, this`count, this`fills, this`loops, out
      ensures Valid()
      ensures ok <==> Accepts(s, old(pos), out.Length, old(loops))
      ensures ok ==> Emitted(s, old(pos), old(Done()), old(count), old(loops), old(fills))
      ensures ok ==> (saw' <==> saw || HasReturn(s))
      decreases s, 1
    {
      hide Encode, AddSites, HasRoom;
      ok, saw' := EmitStmts(s.body, saw);
    }

    method EmitStmts(ss: Stmts, saw: bool) returns (ok: bool, saw': bool)
      requires Valid() && StmtsOk(ss)
      modifies this`pos, this`count, this`fills, this`loops, out
      ensures Valid()
      ensures ok <==> AcceptsList(ss, old(pos), out.Length, old(loops))
      ensures ok ==> EmittedList(ss, old(pos), old(Done()), old(count), old(loops), old(fills))
      ensures ok ==> (saw' <==> saw || AnyReturn(ss))
      decreases ss, 3
    {
      hide StmtBytes, GenStmt, AddSites, HasRoom, LoopsFit, Sites, SiteCount, StmtsBytes, GenStmts, HasReturn, StmtSize;
      ghost var at, done, n, before := pos, Done(), count, loops;
      if ss.Nil? {
        NoSites(loops);
        RoomNone(loops);
        EmptyList(at - 8, 0, 0);
        NoStmts(at - 8);
        assert done + [] == done;
        return true, saw;
      }
      ok, saw' := EmitStmt(ss.head, saw);
      RoomFor(before, ss, at);
      if ok {
        SplitList(ss, at - 8, 0, 0);
        ok, saw' := EmitStmts(ss.tail, saw');
        ListSitesJoin(ss, at);
        AddSitesTwice(before, Sites(ss.head, at, true), Sites(ss.head, at, false),
          ListSites(ss.tail, at + StmtSize(ss.head), true), ListSites(ss.tail, at + StmtSize(ss.head), false));
        TwoParts(done, StmtBytes(ss.head, at - 8, 0, 0), StmtsBytes(ss.tail, at - 8 + StmtSize(ss.head), 0, 0));
      }
    }

    ghost predicate EmittedList(ss: Stmts, at: nat, done: seq<byte>, n: nat, before: seq<LoopPatches>, filled: nat)
      reads this, out
      requires Valid() && StmtsOk(ss)
    {
      pos == at + StmtsSize(ss) &&
      Done() == done + StmtsBytes(ss, at - 8, 0, 0) &&
      count == n + |GenStmts(ss, at - 8, 0, 0)| &&
      loops == AddSites(before, ListSites(ss, at, true), ListSites(ss, at, false)) &&
      fills == filled + ListFills(ss, at, watched)
    }

    method EmitBranch(s: Stmt, saw: bool) returns (ok: bool, saw': bool)
      requires Valid() && StmtOk(s) && (s.If? || s.IfElse?)
      modifies this`pos, this`count, this`fills, this`loops, out
      ensures Valid()
      ensures ok <==> Accepts(s, old(pos), out.Length, old(loops))
      ensures ok ==> Emitted(s, old(pos), old(Done()), old(count), old(loops), old(fills))
      ensures ok ==> (saw' <==> saw || HasReturn(s))
      decreases s, 1
    {
      hide StmtBytes, ExprBytes, GenExpr, GenStmt, AddSites, EncodeInstr, U32, ExprSize, Accepts, StmtSize, HasReturn, Sites;
      hide Fills, FillsE, Hit;
      BranchFacts(s, pos);
      ghost var p, base, before := Done(), CodePos(), loops;
      ghost var body := base + ExprSize(s.cond) + 5;
      ghost var c, t := ExprBytes(s.cond, base), StmtBytes(s.thn, body, 0, 0);
      BranchAccepts(s, pos, out.Length, before);
      AcceptsNeeds(s, pos, out.Length, before);
      var elsePatch;
      ok, saw', elsePatch := EmitThen(s, saw);
      if ok {
        BranchBytes(s, base, p);
        ExprBytesSize(s.cond, base);
        if s.If? {
          FillJump(p + c, Jz(0), t, elsePatch, U32(CodePos()));
          BranchFills(s, old(pos), watched);
        } else {
          BranchSites(before, s, old(pos));
          ok, saw' := EmitElse(s.els, saw', p + c, t, elsePatch);
          if ok {
            BranchFills(s, old(pos), watched);
          }
        }
      }
    }

    /** The condition, its jump with the operand still open, and the first
        branch. */
    method EmitThen(s: Stmt, saw: bool) returns (ok: bool, saw': bool, elsePatch: nat)
      requires Valid() && StmtOk(s) && (s.If? || s.IfElse?)
      modifies this`pos, this`count, this`fills, this`loops, out
      ensures Valid()
      ensures ok <==> Accepts(s.thn, old(pos) + ExprSize(s.cond) + 5, out.Length, old(loops))
      ensures ok ==> pos == old(pos) + ExprSize(s.cond) + 5 + StmtSize(s.thn)
      ensures ok ==> elsePatch == old(pos) + ExprSize(s.cond) + 1
      ensures ok ==> (Done() == old(Done()) + ExprBytes(s.cond, old(CodePos())) + EncodeInstr(Jz(0)) +
        StmtBytes(s.thn, old(CodePos()) + ExprSize(s.cond) + 5, 0, 0))
      ensures ok ==> (count == old(count) + |GenExpr(s.cond, old(CodePos()))| + 1 +
        |GenStmt(s.thn, old(CodePos()) + ExprSize(s.cond) + 5, 0, 0)|)
      ensures ok ==> (loops == AddSites(old(loops), Sites(s.thn, old(pos) + ExprSize(s.cond) + 5, true),
        Sites(s.thn, old(pos) + ExprSize(s.cond) + 5, false)))
      ensures ok ==> (saw' <==> saw || HasReturn(s.thn))
      ensures ok ==> (fills == old(fills) + FillsE(s.cond, old(pos), watched) + Fills(s.thn, old(pos) + ExprSize(s.cond) + 5, watched))
      decreases s, 0
    {
      hide StmtBytes, ExprBytes, GenExpr, GenStmt, AddSites, EncodeInstr, U32, ExprSize, Accepts, StmtSize, HasReturn, Sites;
      AcceptsNeeds(s.thn, pos + ExprSize(s.cond) + 5, out.Length, loops);
      elsePatch := 0;
      saw' := saw;
      ok := EmitExpr(s.cond);
      if ok { ok, elsePatch := EmitJump(Jz(0)); }
      if ok { ok, saw' := EmitStmt(s.thn, saw); }
    }

    /** The jump over the else part, the else part, and both targets. */
    method EmitElse(els: Stmt, saw: bool, ghost pre: seq<byte>, ghost t: seq<byte>, elsePatch: nat) returns (ok: bool, saw': bool)
      requires Valid() && StmtOk(els)
      requires Done() == pre + EncodeInstr(Jz(0)) + t && elsePatch == |pre| + 1
      modifies this`pos, this`count, this`fills, this`loops, out
      ensures Valid()
      ensures ok <==> Accepts(els, old(pos) + 5, out.Length, old(loops))
      ensures ok ==> pos == old(pos) + 5 + StmtSize(els)
      ensures ok ==> (Done() == pre + EncodeInstr(Jz(U32(old(CodePos()) + 5))) + t + EncodeInstr(Jmp(U32(CodePos()))) +
        StmtBytes(els, old(CodePos()) + 5, 0, 0))
      ensures ok ==> count == old(count) + 1 + |GenStmt(els, old(CodePos()) + 5, 0, 0)|
      ensures ok ==> loops == AddSites(old(loops), Sites(els, old(pos) + 5, true), Sites(els, old(pos) + 5, false))
      ensures ok ==> (saw' <==> saw || HasReturn(els))
      ensures ok ==> (fills == old(fills) + Hit(elsePatch, watched) + Hit(old(pos) + 1, watched) + Fills(els, old(pos) + 5, watched))
      decreases els, 3
    {
      hide StmtBytes, GenStmt, AddSites, EncodeInstr, U32, StmtSize, LoopsFit, HasRoom, HasReturn, Sites, Accepts;
      AcceptsNeeds(els, pos + 5, out.Length, loops);
      ghost var jz, jmp := EncodeInstr(Jz(0)), EncodeInstr(Jmp(0));
      var endPatch;
      saw' := saw;
      ok, endPatch := EmitJump(Jmp(0));
      if ok {
        MidParts(pre, jz, t, jmp);
        FillJump(pre, Jz(0), t + jmp, elsePatch, U32(CodePos()));
        ghost var jz' := EncodeInstr(Jz(U32(CodePos())));
        SameLength(Jz(0), U32(CodePos()));
        MidParts(pre, jz', t, jmp);
        ghost var other := CodePos();
        ok, saw' := EmitStmt(els, saw);
        if ok {
          FillJump(pre + jz' + t, Jmp(0), StmtBytes(els, other, 0, 0), endPatch, U32(CodePos()));
        }
      }
    }

    /** Fill in a patch list of the loop body `s`. */
    method FillSites(ghost pre: seq<byte>, ghost s: Stmt, ghost base: int, ghost brk: bool, ghost o: u32,
        ghost post: seq<byte>, sites: seq<nat>, v: u32)
      requires Valid() && StmtOk(s)
      requires Done() == pre + Retargeted(s, base, brk, 0, o) + post && sites == Sites(s, |pre|, brk)
      modifies out, this`fills
      ensures Done() == pre + Retargeted(s, base, brk, v, o) + post
      ensures fills == old(fills) + Listed(sites, watched)
    {
      PatchSites(pre, s, base, brk, 0, v, o, post);
      PatchLoopList(sites, v);
    }

    method EmitWhile(s: Stmt, saw: bool) returns (ok: bool, saw': bool)
      requires Valid() && StmtOk(s) && s.While?
      modifies this`pos, this`count, this`fills, this`loops, out
      ensures Valid()
      ensures ok <==> Accepts(s, old(pos), out.Length, old(loops))
      ensures ok ==> Emitted(s, old(pos), old(Done()), old(count), old(loops), old(fills))
      ensures ok ==> (saw' <==> saw || HasReturn(s))
      decreases s, 1
    {
      hide LoopsFit, HasRoom, SiteCount, Sites, StmtSize, HasReturn;
      hide StmtBytes, ExprBytes, GenExpr, GenStmt, AddSites, EncodeInstr, U32, ExprSize, Accepts, Fills, FillsE, Listed, Hit;
      LoopFacts(s);
      ghost var p, base, before := Done(), CodePos(), loops;
      ExprBytesSize(s.cond, base);
      SameLength(Jz(0), 0);
      OpenLoop(before, s.loopBody, pos + ExprSize(s.cond) + 5);
      LoopAccepts(s, pos, out.Length, before, pos + ExprSize(s.cond) + 5);
      saw' := saw;
      var loopTop := U32(CodePos());
      var jzPatch := 0;
      ok := PushLoop();
      if ok { ok := EmitExpr(s.cond); }
      if ok { ok, jzPatch := EmitJump(Jz(0)); }
      if ok { ok, saw' := EmitStmt(s.loopBody, saw); }
      if ok { ok := EmitJumpTo(loopTop); }
      if ok {
        CloseWhile(s, p, base, jzPatch, loopTop);
        LoopFills(s, old(pos), watched);
        WhileBytes(s, base);
        NoSites(before);
        NoSiteCount(s, old(pos));
      }
    }

    /** The end of a `while`: continue jumps, the exit, break jumps. */
    method CloseWhile(ghost s: Stmt, ghost p: seq<byte>, ghost base: int, jzPatch: nat, loopTop: u32)
      requires Valid() && StmtOk(s) && s.While? && loops != []
      requires var body := base + ExprSize(s.cond) + 5;
        var pre := p + ExprBytes(s.cond, base) + EncodeInstr(Jz(0));
        Done() == pre + StmtBytes(s.loopBody, body, 0, 0) + EncodeInstr(Jmp(loopTop)) &&
        loops[|loops| - 1] == LoopPatches(Sites(s.loopBody, |pre|, true), Sites(s.loopBody, |pre|, false)) &&
        jzPatch == |pre| - 4
      modifies out, this`loops, this`fills
      ensures loops == old(loops)[..|old(loops)| - 1]
      ensures var body := base + ExprSize(s.cond) + 5;
        Done() == p + (ExprBytes(s.cond, base) + EncodeInstr(Jz(U32(CodePos()))) +
          (StmtBytes(s.loopBody, body, U32(CodePos()), loopTop) + EncodeInstr(Jmp(loopTop))))
      ensures fills == old(fills) + Hit(jzPatch, watched) + Listed(old(loops)[|old(loops)| - 1].breaks, watched) +
        Listed(old(loops)[|old(loops)| - 1].continues, watched)
    {
      hide StmtBytes, ExprBytes, EncodeInstr, U32, ExprSize, Sites;
      ghost var b, body := s.loopBody, base + ExprSize(s.cond) + 5;
      ghost var c, jz, jmp := ExprBytes(s.cond, base), EncodeInstr(Jz(0)), EncodeInstr(Jmp(loopTop));
      var lists := loops[|loops| - 1];
      var end := U32(CodePos());
      ghost var jz' := EncodeInstr(Jz(end));
      SameLength(Jz(0), end);
      FillSites(p + c + jz, b, body, false, 0, jmp, lists.continues, loopTop);
      ghost var code := StmtBytes(b, body, 0, loopTop);
      TwoParts(p + c + jz, code, jmp);
      FillJump(p + c, Jz(0), code + jmp, jzPatch, end);
      TwoParts(p + c + jz', code, jmp);
      FillSites(p + c + jz', b, body, true, loopTop, jmp, lists.breaks, end);
      PopLoop();
      WhileParts(p, c, jz', StmtBytes(b, body, end, loopTop), jmp);
    }

    method EmitDoWhile(s: Stmt, saw: bool) returns (ok: bool, saw': bool)
      requires Valid() && StmtOk(s) && s.DoWhile?
      modifies this`pos, this`count, this`fills, this`loops, out
      ensures Valid()
      ensures ok <==> Accepts(s, old(pos), out.Length, old(loops))
      ensures ok ==> Emitted(s, old(pos), old(Done()), old(count), old(loops), old(fills))
      ensures ok ==> (saw' <==> saw || HasReturn(s))
      decreases s, 1
    {
      hide LoopsFit, HasRoom, SiteCount, Sites, StmtSize, HasReturn;
      hide StmtBytes, ExprBytes, GenExpr, GenStmt, AddSites, EncodeInstr, U32, ExprSize, Accepts, Fills, FillsE, Listed, Hit;
      LoopFacts(s);
      var b := s.loopBody;
      ghost var p, base, before := Done(), CodePos(), loops;
      OpenLoop(before, b, pos);
      LoopAccepts(s, pos, out.Length, before, pos);
      saw' := saw;
      var loopTop := U32(CodePos());
      var jzPatch := 0;
      var condTarget := 0;
      ok := PushLoop();
      if ok { ok, saw', condTarget := EmitDoBody(b, saw); }
      if ok { ok := EmitExpr(s.cond); }
      if ok { ok, jzPatch := EmitJump(Jz(0)); }
      if ok { ok := EmitJumpTo(loopTop); }
      if ok {
        CloseDo(s, p, base, jzPatch, loopTop, condTarget);
        LoopFills(s, old(pos), watched);
        DoBytes(s, base);
        NoSites(before);
        NoSiteCount(s, old(pos));
      } else {
        AcceptsNeeds(s, old(pos), out.Length, before);
      }
    }

    /** The body of a `do`-`while`, its continue jumps led to the test. */
    method EmitDoBody(b: Stmt, saw: bool) returns (ok: bool, saw': bool, condTarget: u32)
      requires Valid() && StmtOk(b) && loops != [] && loops[|loops| - 1] == LoopPatches([], [])
      modifies this`pos, this`count, this`fills, this`loops, out
      ensures Valid()
      ensures ok <==> Accepts(b, old(pos), out.Length, old(loops))
      ensures ok ==> condTarget == U32(CodePos())
      ensures ok ==> pos == old(pos) + StmtSize(b)
      ensures ok ==> Done() == old(Done()) + StmtBytes(b, old(CodePos()), 0, condTarget)
      ensures ok ==> count == old(count) + |GenStmt(b, old(CodePos()), 0, 0)|
      ensures ok ==> loops == AddSites(old(loops), Sites(b, old(pos), true), Sites(b, old(pos), false))
      ensures ok ==> fills == old(fills) + Fills(b, old(pos), watched) + Listed(Sites(b, old(pos), false), watched)
      ensures ok ==> (saw' <==> saw || HasReturn(b))
      decreases b, 3
    {
      hide StmtBytes, GenStmt, EncodeInstr, U32, Accepts, Fills, Listed, Sites, StmtSize, HasReturn;
      ghost var p, base := Done(), CodePos();
      assert [] + Sites(b, pos, false) == Sites(b, pos, false);
      ok, saw' := EmitStmt(b, saw);
      condTarget := 0;
      if ok {
        condTarget := U32(CodePos());
        NoPost(p + StmtBytes(b, base, 0, 0));
        FillSites(p, b, base, false, 0, [], loops[|loops| - 1].continues, condTarget);
        NoPost(p + StmtBytes(b, base, 0, condTarget));
      }
    }

    /** The end of a `do`-`while`: the exit and the break jumps. */
    method CloseDo(ghost s: Stmt, ghost p: seq<byte>, ghost base: int, jzPatch: nat, loopTop: u32, ghost cond: u32)
      requires Valid() && StmtOk(s) && s.DoWhile? && loops != []
      requires var test := base + StmtSize(s.loopBody);
        Done() == p + StmtBytes(s.loopBody, base, 0, cond) + ExprBytes(s.cond, test) + EncodeInstr(Jz(0)) +
          EncodeInstr(Jmp(loopTop)) &&
        loops[|loops| - 1].breaks == Sites(s.loopBody, |p|, true) &&
        jzPatch == |p| + StmtSize(s.loopBody) + ExprSize(s.cond) + 1
      modifies out, this`loops, this`fills
      ensures loops == old(loops)[..|old(loops)| - 1]
      ensures Done() == p + (StmtBytes(s.loopBody, base, U32(CodePos()), cond) +
        ExprBytes(s.cond, base + StmtSize(s.loopBody)) + (EncodeInstr(Jz(U32(CodePos()))) + EncodeInstr(Jmp(loopTop))))
      ensures fills == old(fills) + Hit(jzPatch, watched) + Listed(old(loops)[|old(loops)| - 1].breaks, watched)
    {
      hide StmtBytes, ExprBytes, EncodeInstr, U32, ExprSize, Sites, StmtSize;
      ghost var b, test := s.loopBody, base + StmtSize(s.loopBody);
      var end := U32(CodePos());
      ghost var c, jmp, jz' := ExprBytes(s.cond, test), EncodeInstr(Jmp(loopTop)), EncodeInstr(Jz(end));
      ghost var code := StmtBytes(b, base, 0, cond);
      ExprBytesSize(s.cond, test);
      StmtBytesSize(b, base, 0, cond);
      FillJump(p + code + c, Jz(0), jmp, jzPatch, end);
      DoParts(p, code, c, jz', jmp);
      FillSites(p, b, base, true, cond, c + (jz' + jmp), loops[|loops| - 1].breaks, end);
      PopLoop();
      ghost var code' := StmtBytes(b, base, end, cond);
      TwoParts(p + code', c, jz' + jmp);
      ThreeParts(p, code', c, jz' + jmp);
    }

    /** The optional condition of a `for`; `jzPatch` is set when there is one. */
    method EmitTest(test: Option<Expr>) returns (ok: bool, jzPatch: nat)
      requires Valid()
      modifies this`pos, this`count, this`fills, out
      ensures Valid()
      ensures ok <==> old(pos) + TestSize(test) <= out.Length
      ensures ok ==> pos == old(pos) + TestSize(test)
      ensures ok ==> Done() == old(Done()) + TestBytes(test, old(CodePos()), 0)
      ensures ok ==> count == old(count) + |GenTest(test, old(CodePos()), 0)|
      ensures ok ==> jzPatch == if test.Some? then pos - 4 else 0
      ensures ok ==> fills == old(fills) + (if test.Some? then FillsE(test.value, old(pos), watched) else 0)
    {
      hide GenExpr, Encode, EncodeInstr, ExprBytes, ExprSize;
      jzPatch := 0;
      if test.None? {
        NoBytes();
        NoPost(Done());
        return true, 0;
      }
      ghost var p, base := Done(), CodePos();
      SplitSnoc(test.value, Jz(0), base);
      ok := EmitExpr(test.value);
      if ok {
        ok, jzPatch := EmitJump(Jz(0));
        TwoParts(p, ExprBytes(test.value, base), EncodeInstr(Jz(0)));
      }
    }

    method EmitFor(s: Stmt, saw: bool) returns (ok: bool, saw': bool)
      requires Valid() && StmtOk(s) && s.For?
      modifies this`pos, this`count, this`fills, this`loops, out
      ensures Valid()
      ensures ok <==> Accepts(s, old(pos), out.Length, old(loops))
      ensures ok ==> Emitted(s, old(pos), old(Done()), old(count), old(loops), old(fills))
      ensures ok ==> (saw' <==> saw || HasReturn(s))
      decreases s, 1
    {
      hide LoopsFit, HasRoom, SiteCount, Sites;
      hide StmtBytes, ClauseBytes, TestBytes, StepBytes, GenClause, GenTest, GenStep, GenStmt, EncodeInstr, U32;
      hide AddSites, ClauseSize, TestSize, StepSize, Accepts, Fills, FillsE, FillsC, FillsO, Hit, Listed;
      ghost var p, base, before := Done(), CodePos(), loops;
      ghost var at := pos + ClauseSize(s.init) + TestSize(s.test);
      OpenLoop(before, s.loopBody, at);
      LoopAccepts(s, pos, out.Length, before, at);
      saw' := saw;
      var jzPatch, loopTop, stepBuf, stepLen, stepCount;
      ghost var stepFills;
      ok, loopTop, jzPatch, stepBuf, stepLen, stepCount, stepFills := EmitForHead(s, at + StmtSize(s.loopBody));
      if ok { ok := PushLoop(); }
      if ok { ok, saw' := EmitStmt(s.loopBody, saw); }
      if ok {
        ok := FinishFor(s, p, base, stepBuf, stepLen, stepCount, stepFills, loopTop, jzPatch);
        if ok {
          ForFills(s, old(pos), watched);
          ForBytes(s, base);
          NoSites(before);
          NoSiteCount(s, old(pos));
        }
      }
    }

    /** The three clauses: init and test go to the output, the step to its
        own buffer. */
    method EmitForHead(s: Stmt, ghost next: nat) returns (ok: bool, loopTop: u32, jzPatch: nat,
        stepBuf: array<byte>, stepLen: nat, stepCount: nat, ghost stepFills: nat)
      requires Valid() && StmtOk(s) && s.For?
      modifies this`pos, this`count, this`fills, out
      ensures Valid() && fresh(stepBuf) && stepLen <= stepBuf.Length
      ensures ok <==> old(pos) + ClauseSize(s.init) + TestSize(s.test) <= out.Length && StepSize(s.step) <= TEMP_MAX
      ensures ok ==> stepBuf[..stepLen] == StepBytes(s.step) && stepLen == StepSize(s.step) && stepCount == |GenStep(s.step)|
      ensures ok ==>
        var top := old(CodePos()) + ClauseSize(s.init);
        loopTop == U32(top) &&
        pos == old(pos) + ClauseSize(s.init) + TestSize(s.test) &&
        jzPatch == (if s.test.Some? then pos - 4 else 0) &&
        Done() == old(Done()) + ClauseBytes(s.init, old(CodePos())) + TestBytes(s.test, top, 0) &&
        count == old(count) + |GenClause(s.init, old(CodePos()))| + |GenTest(s.test, top, 0)|
      ensures ok ==> stepFills == FillsO(s.step, next, watched)
      ensures ok ==> (fills == old(fills) + FillsC(s.init, old(pos), watched) +
        (if s.test.Some? then FillsE(s.test.value, old(pos) + ClauseSize(s.init), watched) else 0))
    {
      hide ClauseBytes, TestBytes, StepBytes, GenClause, GenTest, GenStep, U32, ClauseSize, TestSize, StepSize;
      jzPatch, loopTop := 0, 0;
      ok := EmitClause(s.init);
      if ok {
        loopTop := U32(CodePos());
        ok, jzPatch := EmitTest(s.test);
      }
      var stepOk;
      stepOk, stepBuf, stepLen, stepCount, stepFills := CompileStep(s.step, watched - next);
      StepFillsMove(s.step, next, watched);
      ok := ok && stepOk;
    }

    /** From the end of the body: continue jumps, the step code, the jump
        back, and the exits. */
    method FinishFor(ghost s: Stmt, ghost p: seq<byte>, ghost base: int,
        stepBuf: array<byte>, stepLen: nat, stepCount: nat, ghost stepFills: nat, loopTop: u32, jzPatch: nat)
        returns (ok: bool)
      requires Valid() && StmtOk(s) && s.For? && loops != [] && stepBuf != out && stepLen <= stepBuf.Length
      requires stepBuf[..stepLen] == StepBytes(s.step) && stepLen == StepSize(s.step)
      requires var top := base + ClauseSize(s.init);
        var body := top + TestSize(s.test);
        var pre := p + ClauseBytes(s.init, base) + TestBytes(s.test, top, 0);
        Done() == pre + StmtBytes(s.loopBody, body, 0, 0) &&
        loops[|loops| - 1] == LoopPatches(Sites(s.loopBody, |pre|, true), Sites(s.loopBody, |pre|, false)) &&
        (s.test.Some? ==> jzPatch == |pre| - 4) && (s.test.None? ==> jzPatch == 0)
      modifies this`pos, this`count, this`fills, this`loops, out
      ensures Valid()
      ensures ok <==> old(pos) + StepSize(s.step) + 5 <= out.Length
      ensures ok ==> pos == old(pos) + StepSize(s.step) + 5 && count == old(count) + stepCount + 1
      ensures ok ==> loops == old(loops)[..|old(loops)| - 1]
      ensures ok ==>
        var top := base + ClauseSize(s.init);
        var body := top + TestSize(s.test);
        Done() == p + (ClauseBytes(s.init, base) + TestBytes(s.test, top, CodePos()) +
          (StmtBytes(s.loopBody, body, U32(CodePos()), U32(old(CodePos()))) + StepBytes(s.step) + EncodeInstr(Jmp(loopTop))))
      ensures ok ==> (fills == old(fills) + stepFills + (if jzPatch > 0 then Hit(jzPatch, watched) else 0) +
        Listed(old(loops)[|old(loops)| - 1].breaks, watched) + Listed(old(loops)[|old(loops)| - 1].continues, watched))
    {
      hide StmtBytes, ClauseBytes, TestBytes, StepBytes, EncodeInstr, U32, ClauseSize, TestSize, StepSize, Sites;
      ghost var top := base + ClauseSize(s.init);
      ghost var body := top + TestSize(s.test);
      ghost var pre := p + ClauseBytes(s.init, base) + TestBytes(s.test, top, 0);
      var stepTarget := U32(CodePos());
      ghost var code := StmtBytes(s.loopBody, body, 0, stepTarget);
      NoPost(pre + StmtBytes(s.loopBody, body, 0, 0));
      FillSites(pre, s.loopBody, body, false, 0, [], loops[|loops| - 1].continues, stepTarget);
      NoPost(pre + code);
      ok := EmitBytes(stepBuf, stepLen);
      count := count + stepCount;
      fills := fills + stepFills;
      if ok { ok := EmitJumpTo(loopTop); }
      if ok {
        ghost var step, jmp := StepBytes(s.step), EncodeInstr(Jmp(loopTop));
        TwoParts(pre + code, step, jmp);
        CloseFor(s, p, base, stepTarget, step + jmp, jzPatch);
        TwoParts(StmtBytes(s.loopBody, body, U32(CodePos()), stepTarget), step, jmp);
      }
    }

    /** The end of a `for`: the exits are filled in and the loop is closed. */
    method CloseFor(ghost s: Stmt, ghost p: seq<byte>, ghost base: int, ghost next: u32, ghost rest: seq<byte>, jzPatch: nat)
      requires Valid() && StmtOk(s) && s.For? && loops != []
      requires var top := base + ClauseSize(s.init);
        var body := top + TestSize(s.test);
        var pre := p + ClauseBytes(s.init, base) + TestBytes(s.test, top, 0);
        Done() == pre + StmtBytes(s.loopBody, body, 0, next) + rest &&
        loops[|loops| - 1].breaks == Sites(s.loopBody, |pre|, true) &&
        (s.test.Some? ==> jzPatch == |pre| - 4) && (s.test.None? ==> jzPatch == 0)
      modifies out, this`loops, this`fills
      ensures loops == old(loops)[..|old(loops)| - 1]
      ensures var top := base + ClauseSize(s.init);
        var body := top + TestSize(s.test);
        Done() == p + (ClauseBytes(s.init, base) + TestBytes(s.test, top, CodePos()) +
          (StmtBytes(s.loopBody, body, U32(CodePos()), next) + rest))
      ensures fills == old(fills) + (if jzPatch > 0 then Hit(jzPatch, watched) else 0) +
        Listed(old(loops)[|old(loops)| - 1].breaks, watched)
    {
      hide StmtBytes, ClauseBytes, ExprBytes, EncodeInstr, U32, ClauseSize, TestSize, Sites, Encode, GenExpr, ExprSize;
      ghost var top := base + ClauseSize(s.init);
      ghost var body := top + TestSize(s.test);
      ghost var i, t := ClauseBytes(s.init, base), TestBytes(s.test, top, 0);
      ghost var code := StmtBytes(s.loopBody, body, 0, next);
      var end := U32(CodePos());
      ghost var t' := TestBytes(s.test, top, CodePos());
      TestLength(s.test, top, 0, CodePos());
      if jzPatch > 0 {
        ghost var c := ExprBytes(s.test.value, top);
        TestSplit(s.test, top, 0);
        TestSplit(s.test, top, CodePos());
        OpenTest(p, i, c, EncodeInstr(Jz(0)), code, rest);
        SameLength(Jz(0), 0);
        assert t == c + EncodeInstr(Jz(0));
        FillJump(p + i + c, Jz(0), code + rest, jzPatch, end);
        OpenTest(p, i, c, EncodeInstr(Jz(end)), code, rest);
      } else if s.test.Some? {
        TestSplit(s.test, top, 0);
        assert false;
      } else {
        assert t == t';
      }
      FillSites(p + i + t', s.loopBody, body, true, next, rest, loops[|loops| - 1].breaks, end);
      PopLoop();
      ForParts(p, i, t', StmtBytes(s.loopBody, body, end, next), rest);
    }
  }

  // ----- what the compiler accepts -----

  /** The compiler accepts `s` exactly when its code fits the buffer, its loops
      respect the limits, and its own breaks and continues find a loop with
      room for them. */
  predicate Accepts(s: Stmt, pos: nat, cap: nat, loops: seq<LoopPatches>) {
    pos + StmtSize(s) <= cap && LoopsFit(s, |loops|) &&
    HasRoom(loops, SiteCount(s, true), SiteCount(s, false))
  }

  predicate AcceptsList(ss: Stmts, pos: nat, cap: nat, loops: seq<LoopPatches>) {
    pos + StmtsSize(ss) <= cap && ListLoopsFit(ss, |loops|) &&
    HasRoom(loops, ListSiteCount(ss, true), ListSiteCount(ss, false))
  }

  /** What the parts of a short-circuit operator fill. */
  lemma LogicFills(e: Expr, at: nat, p: int)
    requires e.AndAlso? || e.OrElse?
    ensures var jz := at + ExprSize(e.l);
      var right := jz + if e.AndAlso? then 5 else 15;
      var truth := right + ExprSize(e.r);
      FillsE(e, at, p) == FillsE(e.l, at, p) + Hit(jz + 1, p) + FillsE(e.r, right, p) + Hit(truth + 1, p) +
        Hit(truth + 11, p) + if e.AndAlso? then 0 else Hit(jz + 11, p)
  {
    hide ExprSize, Hit;
  }

  /** What the parts of a conditional fill. */
  lemma BranchFills(s: Stmt, at: nat, p: int)
    requires s.If? || s.IfElse?
    ensures var body := at + ExprSize(s.cond) + 5;
      var jmp := body + StmtSize(s.thn);
      Fills(s, at, p) == FillsE(s.cond, at, p) + Hit(body - 4, p) + Fills(s.thn, body, p) +
        if s.If? then 0 else Hit(jmp + 1, p) + Fills(s.els, jmp + 5, p)
  {
    hide FillsE, ExprSize, Hit;
  }

  /** What the parts of a `while` or a `do`-`while` fill. */
  lemma LoopFills(s: Stmt, at: nat, p: int)
    requires s.While? || s.DoWhile?
    ensures var c := ExprSize(s.cond);
      var body := if s.While? then at + c + 5 else at;
      var test := if s.While? then at else at + StmtSize(s.loopBody);
      Fills(s, at, p) == FillsE(s.cond, test, p) + Hit(test + c + 1, p) + Fills(s.loopBody, body, p) +
        Listed(Sites(s.loopBody, body, true), p) + Listed(Sites(s.loopBody, body, false), p)
  {
    hide FillsE, ExprSize, Hit, Listed;
  }

  /** What the parts of a `for` fill. */
  lemma ForFills(s: Stmt, at: nat, p: int)
    requires s.For?
    ensures var top := at + ClauseSize(s.init);
      var body := top + TestSize(s.test);
      Fills(s, at, p) == FillsC(s.init, at, p) +
        (if s.test.Some? then FillsE(s.test.value, top, p) + Hit(body - 4, p) else 0) + Fills(s.loopBody, body, p) +
        Listed(Sites(s.loopBody, body, true), p) + Listed(Sites(s.loopBody, body, false), p) +
        FillsO(s.step, body + StmtSize(s.loopBody), p)
    ensures s.test.Some? ==> TestSize(s.test) > 4
  {
    hide FillsE, FillsC, FillsO, ExprSize, ClauseSize, Hit, Listed;
  }

  lemma NoBytes()
    ensures Encode([]) == []
  {
  }

  lemma NoStmts(base: int)
    ensures GenStmts(Nil, base, 0, 0) == []
  {
  }

  lemma NoSites(loops: seq<LoopPatches>)
    ensures AddSites(loops, [], []) == loops
  {
    if loops != [] {
      var top := loops[|loops| - 1];
      assert top.breaks + [] == top.breaks && top.continues + [] == top.continues;
    }
  }

  lemma AcceptsNeeds(s: Stmt, at: nat, cap: nat, loops: seq<LoopPatches>)
    ensures Accepts(s, at, cap, loops) ==> at + StmtSize(s) <= cap
  {
  }

  lemma FiveParts(p: seq<byte>, a: seq<byte>, b: seq<byte>, c: seq<byte>, d: seq<byte>, e: seq<byte>)
    ensures p + a + b + c + d + e == p + (a + b + c + d + e)
    ensures p + a + b + c + d + e == p + (a + b + (c + d + e))
  {
    assert a + b + c + d + e == a + b + (c + d + e);
  }

  lemma LogicSize(e: Expr)
    requires e.AndAlso? || e.OrElse?
    ensures ExprSize(e) == ExprSize(e.l) + ExprSize(e.r) + if e.AndAlso? then 25 else 35
  {
  }

  lemma BranchFacts(s: Stmt, at: nat)
    requires s.If? || s.IfElse?
    ensures StmtSize(s) == ExprSize(s.cond) + 5 + StmtSize(s.thn) + if s.If? then 0 else 5 + StmtSize(s.els)
    ensures HasReturn(s) <==> HasReturn(s.thn) || (s.IfElse? && HasReturn(s.els))
    ensures s.If? ==> Sites(s, at, true) == Sites(s.thn, at + ExprSize(s.cond) + 5, true)
    ensures s.If? ==> Sites(s, at, false) == Sites(s.thn, at + ExprSize(s.cond) + 5, false)
    ensures StmtOk(s) ==> StmtOk(s.thn) && ExprOk(s.cond) && (s.IfElse? ==> StmtOk(s.els))
  {
    hide ExprSize, ExprOk;
  }

  lemma LoopFacts(s: Stmt)
    requires s.While? || s.DoWhile?
    ensures StmtSize(s) == ExprSize(s.cond) + StmtSize(s.loopBody) + 10
    ensures HasReturn(s) <==> HasReturn(s.loopBody)
    ensures StmtOk(s) ==> StmtOk(s.loopBody) && ExprOk(s.cond)
  {
    hide ExprSize, ExprOk;
  }

  lemma RoomNone(loops: seq<LoopPatches>)
    ensures HasRoom(loops, 0, 0)
  {
  }

  lemma LoopAccepts(s: Stmt, at: nat, cap: nat, loops: seq<LoopPatches>, bodyAt: nat)
    requires s.While? || s.DoWhile? || s.For?
    requires bodyAt + StmtSize(s.loopBody) <= at + StmtSize(s)
    ensures var open := loops + [LoopPatches([], [])];
      Accepts(s, at, cap, loops) <==>
        at + StmtSize(s) <= cap && |loops| < LOOP_MAX && Accepts(s.loopBody, bodyAt, cap, open) &&
        (s.For? ==> StepSize(s.step) <= TEMP_MAX)
  {
    hide SiteCount, HasRoom, ExprSize, ClauseSize, TestSize, StepSize;
    OpenLoop(loops, s.loopBody, bodyAt);
    NoSiteCount(s, at);
    assert LoopsFit(s, |loops|) <==> BodyFits(s.loopBody, |loops|) && (s.For? ==> StepSize(s.step) <= TEMP_MAX);
    assert HasRoom(loops, SiteCount(s, true), SiteCount(s, false));
    assert |loops + [LoopPatches([], [])]| == |loops| + 1;
  }

  lemma NoSiteCount(s: Stmt, at: nat)
    requires s.While? || s.DoWhile? || s.For?
    ensures SiteCount(s, true) == SiteCount(s, false) == 0
    ensures Sites(s, at, true) == Sites(s, at, false) == []
  {
  }

  lemma BranchAccepts(s: Stmt, at: nat, cap: nat, loops: seq<LoopPatches>)
    requires s.If? || s.IfElse?
    ensures var body := at + ExprSize(s.cond) + 5;
      var l := AddSites(loops, Sites(s.thn, body, true), Sites(s.thn, body, false));
      Accepts(s, at, cap, loops) <==>
        at + StmtSize(s) <= cap && Accepts(s.thn, body, cap, loops) &&
        (s.IfElse? ==> Accepts(s.els, body + StmtSize(s.thn) + 5, cap, l))
  {
    hide HasRoom, ExprSize, AddSites;
    RoomForBranch(loops, s, at);
    if s.IfElse? {
      BranchSites(loops, s, at);
    }
  }

  lemma TwoParts(p: seq<byte>, a: seq<byte>, b: seq<byte>)
    ensures p + a + b == p + (a + b)
  {
  }

  lemma AddSitesTwice(loops: seq<LoopPatches>, b: seq<nat>, c: seq<nat>, b': seq<nat>, c': seq<nat>)
    ensures AddSites(AddSites(loops, b, c), b', c') == AddSites(loops, b + b', c + c')
    ensures |AddSites(loops, b, c)| == |loops|
  {
    if loops != [] {
      var top := loops[|loops| - 1];
      assert top.breaks + b + b' == top.breaks + (b + b');
      assert top.continues + c + c' == top.continues + (c + c');
    }
  }

  lemma RoomTwice(loops: seq<LoopPatches>, b: seq<nat>, c: seq<nat>, nb: nat, nc: nat)
    ensures HasRoom(loops, |b| + nb, |c| + nc) <==>
      HasRoom(loops, |b|, |c|) && HasRoom(AddSites(loops, b, c), nb, nc)
  {
  }

  lemma RoomFor(loops: seq<LoopPatches>, ss: Stmts, at: nat)
    requires ss.Cons?
    ensures var l := AddSites(loops, Sites(ss.head, at, true), Sites(ss.head, at, false));
      |l| == |loops| &&
      (HasRoom(loops, ListSiteCount(ss, true), ListSiteCount(ss, false)) <==>
        HasRoom(loops, SiteCount(ss.head, true), SiteCount(ss.head, false)) &&
        HasRoom(l, ListSiteCount(ss.tail, true), ListSiteCount(ss.tail, false)))
  {
    hide Sites, SiteCount, HasRoom;
    SitesCounted(ss.head, at, true);
    SitesCounted(ss.head, at, false);
    RoomTwice(loops, Sites(ss.head, at, true), Sites(ss.head, at, false),
      ListSiteCount(ss.tail, true), ListSiteCount(ss.tail, false));
    AddSitesTwice(loops, Sites(ss.head, at, true), Sites(ss.head, at, false), [], []);
  }

  lemma ListSitesJoin(ss: Stmts, at: nat)
    requires ss.Cons?
    ensures ListSites(ss, at, true) == Sites(ss.head, at, true) + ListSites(ss.tail, at + StmtSize(ss.head), true)
    ensures ListSites(ss, at, false) == Sites(ss.head, at, false) + ListSites(ss.tail, at + StmtSize(ss.head), false)
  {
  }

  lemma RoomForBranch(loops: seq<LoopPatches>, s: Stmt, at: nat)
    requires s.If? || s.IfElse?
    ensures s.If? ==> (HasRoom(loops, SiteCount(s, true), SiteCount(s, false)) <==>
      HasRoom(loops, SiteCount(s.thn, true), SiteCount(s.thn, false)))
    ensures s.IfElse? && HasRoom(loops, SiteCount(s, true), SiteCount(s, false)) ==>
      HasRoom(loops, SiteCount(s.thn, true), SiteCount(s.thn, false))
  {
  }

  lemma BranchSites(loops: seq<LoopPatches>, s: Stmt, at: nat)
    requires s.IfElse?
    ensures var body := at + ExprSize(s.cond) + 5;
      var other := body + StmtSize(s.thn) + 5;
      var l := AddSites(loops, Sites(s.thn, body, true), Sites(s.thn, body, false));
      |l| == |loops| &&
      AddSites(l, Sites(s.els, other, true), Sites(s.els, other, false)) ==
        AddSites(loops, Sites(s, at, true), Sites(s, at, false)) &&
      (HasRoom(loops, SiteCount(s, true), SiteCount(s, false)) <==>
        HasRoom(loops, SiteCount(s.thn, true), SiteCount(s.thn, false)) &&
        HasRoom(l, SiteCount(s.els, true), SiteCount(s.els, false)))
  {
    hide HasRoom, AddSites, ExprSize;
    var body := at + ExprSize(s.cond) + 5;
    var other := body + StmtSize(s.thn) + 5;
    SitesCounted(s.thn, body, true);
    SitesCounted(s.thn, body, false);
    RoomTwice(loops, Sites(s.thn, body, true), Sites(s.thn, body, false), SiteCount(s.els, true), SiteCount(s.els, false));
    AddSitesTwice(loops, Sites(s.thn, body, true), Sites(s.thn, body, false),
      Sites(s.els, other, true), Sites(s.els, other, false));
  }

  /** A freshly opened loop accepts the body's jumps when they fit its lists,
      and ends up holding exactly them. */
  lemma OpenLoop(loops: seq<LoopPatches>, b: Stmt, at: nat)
    ensures var open := loops + [LoopPatches([], [])];
      (HasRoom(open, SiteCount(b, true), SiteCount(b, false)) <==>
        SiteCount(b, true) <= LOOP_PATCH_MAX && SiteCount(b, false) <= LOOP_PATCH_MAX) &&
      AddSites(open, Sites(b, at, true), Sites(b, at, false)) ==
        loops + [LoopPatches(Sites(b, at, true), Sites(b, at, false))] &&
      HasRoom(loops, 0, 0)
  {
    hide Sites, SiteCount;
    assert [] + Sites(b, at, true) == Sites(b, at, true) && [] + Sites(b, at, false) == Sites(b, at, false);
  }

  lemma NoPost(s: seq<byte>)
    ensures s + [] == s
  {
  }

  lemma IfParts(p: seq<byte>, c: seq<byte>, jz: seq<byte>, t: seq<byte>)
    ensures p + c + jz + t == p + (c + jz + t + [])
  {
  }

  lemma ElseParts(p: seq<byte>, c: seq<byte>, jz: seq<byte>, t: seq<byte>, jmp: seq<byte>, e: seq<byte>)
    ensures p + c + jz + t + jmp + e == p + (c + jz + t + (jmp + e))
  {
    FourParts(p, c, jz, t, jmp + e);
    MidParts(p + c + jz, t, jmp, e);
  }

  /** The code of a conditional behind `p`, in the order it is emitted. */
  lemma BranchBytes(s: Stmt, base: int, p: seq<byte>)
    requires StmtOk(s) && (s.If? || s.IfElse?)
    ensures var body := base + ExprSize(s.cond) + 5;
      var other := body + StmtSize(s.thn) + if s.If? then 0 else 5;
      var open := p + ExprBytes(s.cond, base) + EncodeInstr(Jz(U32(other))) + StmtBytes(s.thn, body, 0, 0);
      p + StmtBytes(s, base, 0, 0) == if s.If? then open
        else open + EncodeInstr(Jmp(U32(other + StmtSize(s.els)))) + StmtBytes(s.els, other, 0, 0)
    ensures var body := base + ExprSize(s.cond) + 5;
      |GenStmt(s, base, 0, 0)| == |GenExpr(s.cond, base)| + 1 + |GenStmt(s.thn, body, 0, 0)| +
        (if s.If? then 0 else 1 + |GenStmt(s.els, body + StmtSize(s.thn) + 5, 0, 0)|)
  {
    hide StmtBytes, ExprBytes, GenExpr, GenStmt, EncodeInstr, U32, ExprSize, StmtSize;
    SplitBranch(s, base, 0, 0);
    var body := base + ExprSize(s.cond) + 5;
    var c, t := ExprBytes(s.cond, base), StmtBytes(s.thn, body, 0, 0);
    if s.If? {
      IfParts(p, c, EncodeInstr(Jz(U32(body + StmtSize(s.thn)))), t);
    } else {
      var other := body + StmtSize(s.thn) + 5;
      ElseParts(p, c, EncodeInstr(Jz(U32(other))), t, EncodeInstr(Jmp(U32(other + StmtSize(s.els)))),
        StmtBytes(s.els, other, 0, 0));
    }
  }

  lemma WhileParts(p: seq<byte>, c: seq<byte>, jz: seq<byte>, b: seq<byte>, jmp: seq<byte>)
    ensures p + c + jz + b + jmp == p + (c + jz + (b + jmp))
  {
    ThreeParts(p, c, jz, b + jmp);
    MidParts(p + c, jz, b, jmp);
  }

  lemma DoParts(p: seq<byte>, b: seq<byte>, c: seq<byte>, jz: seq<byte>, jmp: seq<byte>)
    ensures p + b + c + jz + jmp == p + b + (c + (jz + jmp))
  {
  }

  lemma OpenTest(p: seq<byte>, i: seq<byte>, c: seq<byte>, jz: seq<byte>, b: seq<byte>, rest: seq<byte>)
    ensures p + i + (c + jz) + b + rest == p + i + c + jz + (b + rest)
  {
    TwoParts(p + i, c, jz);
    TwoParts(p + i + c + jz, b, rest);
  }

  lemma ForParts(p: seq<byte>, i: seq<byte>, t: seq<byte>, b: seq<byte>, rest: seq<byte>)
    ensures p + i + t + b + rest == p + (i + t + (b + rest))
  {
    TwoParts(p + i + t, b, rest);
    ThreeParts(p, i, t, b + rest);
  }

  /** The code of a `for`, with the lengths it has while its targets are open. */
  lemma ForBytes(s: Stmt, base: int)
    requires StmtOk(s) && s.For?
    ensures var top := base + ClauseSize(s.init);
      var body := top + TestSize(s.test);
      var next := body + StmtSize(s.loopBody);
      var end := next + StepSize(s.step) + 5;
      StmtBytes(s, base, 0, 0) == ClauseBytes(s.init, base) + TestBytes(s.test, top, end) +
        (StmtBytes(s.loopBody, body, U32(end), U32(next)) + StepBytes(s.step) + EncodeInstr(Jmp(U32(top)))) &&
      |GenStmt(s, base, 0, 0)| == |GenClause(s.init, base)| + |GenTest(s.test, top, 0)| +
        |GenStmt(s.loopBody, body, 0, 0)| + |GenStep(s.step)| + 1
  {
    hide StmtBytes, ClauseBytes, TestBytes, StepBytes, GenClause, GenTest, GenStep, GenStmt, EncodeInstr, U32;
    hide ClauseSize, TestSize, StepSize, StmtSize;
    var top := base + ClauseSize(s.init);
    var next := top + TestSize(s.test) + StmtSize(s.loopBody);
    var end := next + StepSize(s.step) + 5;
    SplitFor(s, base, 0, 0);
    TestLength(s.test, top, 0, end);
    GenStmtLength(s.loopBody, top + TestSize(s.test), 0, 0, U32(end), U32(next));
  }

  /** The code of a `while`, with the lengths it has while its targets are open. */
  lemma WhileBytes(s: Stmt, base: int)
    requires StmtOk(s) && s.While?
    ensures var body := base + ExprSize(s.cond) + 5;
      var end := U32(body + StmtSize(s.loopBody) + 5);
      StmtBytes(s, base, 0, 0) == ExprBytes(s.cond, base) + EncodeInstr(Jz(end)) +
        (StmtBytes(s.loopBody, body, end, U32(base)) + EncodeInstr(Jmp(U32(base)))) &&
      |GenStmt(s, base, 0, 0)| == |GenExpr(s.cond, base)| + |GenStmt(s.loopBody, body, 0, 0)| + 2
  {
    hide StmtBytes, ExprBytes, GenExpr, GenStmt, EncodeInstr, U32, ExprSize, StmtSize;
    SplitWhile(s, base, 0, 0);
    var body := base + ExprSize(s.cond) + 5;
    GenStmtLength(s.loopBody, body, 0, 0, U32(body + StmtSize(s.loopBody) + 5), U32(base));
  }

  /** The code of a `do`-`while`, likewise. */
  lemma DoBytes(s: Stmt, base: int)
    requires StmtOk(s) && s.DoWhile?
    ensures var test := base + StmtSize(s.loopBody);
      var end := U32(test + ExprSize(s.cond) + 10);
      StmtBytes(s, base, 0, 0) == StmtBytes(s.loopBody, base, end, U32(test)) + ExprBytes(s.cond, test) +
        (EncodeInstr(Jz(end)) + EncodeInstr(Jmp(U32(base)))) &&
      |GenStmt(s, base, 0, 0)| == |GenStmt(s.loopBody, base, 0, 0)| + |GenExpr(s.cond, test)| + 2
  {
    hide StmtBytes, ExprBytes, GenExpr, GenStmt, EncodeInstr, U32, ExprSize, StmtSize;
    SplitDo(s, base, 0, 0);
    var test := base + StmtSize(s.loopBody);
    GenStmtLength(s.loopBody, base, 0, 0, U32(test + ExprSize(s.cond) + 10), U32(test));
  }

  lemma TestSplit(test: Option<Expr>, base: int, end: int)
    requires test.Some?
    ensures TestBytes(test, base, end) == ExprBytes(test.value, base) + EncodeInstr(Jz(U32(end)))
    ensures |TestBytes(test, base, end)| == |ExprBytes(test.value, base)| + 5
    ensures U32(0) == 0
  {
    hide EncodeInstr, GenExpr, Encode, ExprBytes;
    SplitSnoc(test.value, Jz(U32(end)), base);
    SameLength(Jz(0), U32(end));
  }

  lemma TestLength(test: Option<Expr>, base: int, end: int, end': int)
    ensures |TestBytes(test, base, end)| == TestSize(test)
    ensures |GenTest(test, base, end)| == |GenTest(test, base, end')|
  {
    hide EncodeInstr, GenExpr, Encode, U32, Size;
    EncodableParts(NoClause, test, None, 0, base, end);
    EncodeSize(GenTest(test, base, end));
    GenTestSize(test, base, end);
  }

  /** The operands of a step clause are filled in its side buffer. */
  lemma StepFillsMove(step: Option<Expr>, next: nat, p: int)
    ensures FillsO(step, 0, p - next) == FillsO(step, next, p)
  {
    if step.Some? {
      FillsShift(step.value, 0, next, p - next);
    }
  }

  /** Compile the step clause of a `for` into a side buffer of its own. */
  method CompileStep(step: Option<Expr>, ghost watched: int)
      returns (ok: bool, buf: array<byte>, len: nat, n: nat, ghost fills: nat)
    ensures fresh(buf) && len <= buf.Length
    ensures ok <==> StepSize(step) <= TEMP_MAX
    ensures ok ==> buf[..len] == StepBytes(step) && n == |GenStep(step)| && len == StepSize(step)
    ensures ok ==> fills == FillsO(step, 0, watched)
  {
    hide GenExpr, Encode, ExprSize;
    buf := new byte[TEMP_MAX];
    var ctx := new Context(buf, 0, watched);
    ok := true;
    if step.Some? {
      ok := ctx.EmitExprThen(step.value, Pop);
    } else {
      NoBytes();
    }
    len, n, fills := ctx.pos, ctx.count, ctx.fills;
  }

  function OrLeft(l: seq<byte>, rhs: int): seq<byte> {
    l + EncodeInstr(Jz(U32(rhs))) + EncodeInstr(PushConst(1))
  }

  lemma OrLeftParts(p: seq<byte>, l: seq<byte>, rhs: int, jmp: seq<byte>)
    ensures p + l + EncodeInstr(Jz(U32(rhs))) + (EncodeInstr(PushConst(1)) + jmp) == p + OrLeft(l, rhs) + jmp
  {
    hide EncodeInstr, U32;
    var c1 := EncodeInstr(PushConst(1));
    MidParts(p + l, EncodeInstr(Jz(U32(rhs))), c1, jmp);
    ThreeParts(p, l, EncodeInstr(Jz(U32(rhs))), c1);
  }

  lemma AndWhole(e: Expr, base: int, p: seq<byte>, no: u32, end: u32)
    requires e.AndAlso?
    requires no == U32(RightBase(e, base) + ExprSize(e.r) + 15) && end == U32(RightBase(e, base) + ExprSize(e.r) + 20)
    ensures p + ExprBytes(e.l, base) + EncodeInstr(Jz(no)) + ExprBytes(e.r, RightBase(e, base)) + Truth(no, end) ==
      p + ExprBytes(e, base)
    ensures |GenExpr(e, base)| == |GenExpr(e.l, base)| + |GenExpr(e.r, RightBase(e, base))| + 5
  {
    hide EncodeInstr, GenExpr, Encode, ExprBytes, U32, Truth;
    SplitLogic(e, base);
    EncodeOne(Jz(no));
    LogicTailBytes(e, base);
    FourParts(p, ExprBytes(e.l, base), EncodeInstr(Jz(no)), ExprBytes(e.r, RightBase(e, base)), Truth(no, end));
  }

  lemma OrWhole(e: Expr, base: int, p: seq<byte>, no: u32, end: u32)
    requires e.OrElse?
    requires no == U32(RightBase(e, base) + ExprSize(e.r) + 15) && end == U32(RightBase(e, base) + ExprSize(e.r) + 20)
    ensures
      p + OrLeft(ExprBytes(e.l, base), RightBase(e, base)) + EncodeInstr(Jmp(end)) +
        ExprBytes(e.r, RightBase(e, base)) + Truth(no, end) == p + ExprBytes(e, base)
    ensures |GenExpr(e, base)| == |GenExpr(e.l, base)| + |GenExpr(e.r, RightBase(e, base))| + 7
  {
    hide EncodeInstr, GenExpr, Encode, ExprBytes, U32, Truth;
    var rhs := RightBase(e, base);
    var go, c1, m := EncodeInstr(Jz(U32(rhs))), EncodeInstr(PushConst(1)), EncodeInstr(Jmp(end));
    var l, r := ExprBytes(e.l, base), ExprBytes(e.r, rhs);
    SplitLogic(e, base);
    Encode3(Jz(U32(rhs)), PushConst(1), Jmp(end));
    LogicTailBytes(e, base);
    ThreeParts(l, go, c1, m);
    FourParts(p, OrLeft(l, rhs), m, r, Truth(no, end));
  }

  /** The instructions that turn the value on top into a truth value. */
  function Truth(no: u32, end: u32): seq<byte> {
    EncodeInstr(Jz(no)) + EncodeInstr(PushConst(1)) + EncodeInstr(Jmp(end)) + EncodeInstr(PushConst(0))
  }

  lemma TruthJoin(p: seq<byte>, no: u32)
    ensures p + EncodeInstr(Jz(no)) + (EncodeInstr(PushConst(1)) + EncodeInstr(Jmp(0))) + EncodeInstr(PushConst(0)) ==
      p + Truth(no, 0)
  {
    hide EncodeInstr;
  }

  lemma FourParts(p: seq<byte>, a: seq<byte>, b: seq<byte>, c: seq<byte>, d: seq<byte>)
    ensures p + a + b + c + d == p + (a + b + c + d)
  {
  }

  lemma MidParts(p: seq<byte>, a: seq<byte>, b: seq<byte>, c: seq<byte>)
    ensures p + a + (b + c) == p + a + b + c
  {
  }

  lemma ThreeParts(p: seq<byte>, a: seq<byte>, b: seq<byte>, c: seq<byte>)
    ensures p + a + b + c == p + (a + b + c)
  {
  }

  /** Two jumps filled in: `j`, and the jump to the end in the truth-value
      ending. */
  lemma TwoPatches(a: seq<byte>, j: Instr, r: seq<byte>, v: u32, no: u32, end: u32)
    requires j == Jz(0) || j == Jmp(0)
    ensures |a| + 25 + |r| == |a + EncodeInstr(j) + r + Truth(no, 0)|
    ensures Patched(Patched(a + EncodeInstr(j) + r + Truth(no, 0), |a| + 1, v), |a| + |r| + 16, end) ==
      a + EncodeInstr(Retarget(j, v)) + r + Truth(no, end)
  {
    hide EncodeInstr, Patched;
    var x, y, c1, c0 := EncodeInstr(j), EncodeInstr(Retarget(j, v)), EncodeInstr(PushConst(1)), EncodeInstr(PushConst(0));
    var jz, m, m' := EncodeInstr(Jz(no)), EncodeInstr(Jmp(0)), EncodeInstr(Jmp(end));
    SameLength(j, v);
    SameLength(Jz(0), no);
    SameLength(Jmp(0), end);
    ConstBytes(1);
    ConstBytes(0);
    MidParts(a, x, r, Truth(no, 0));
    PatchJump(a, j, r + Truth(no, 0), v);
    MidParts(a, y, r, Truth(no, 0));
    var q := a + y + r + (jz + c1);
    assert a + y + r + Truth(no, 0) == q + m + c0;
    PatchJump(q, Jmp(0), c0, end);
    assert a + y + r + Truth(no, end) == q + m' + c0;
  }

  lemma SameLength(j: Instr, v: u32)
    requires j.Jmp? || j.Jz?
    ensures |EncodeInstr(Retarget(j, v))| == |EncodeInstr(j)| == 5
  {
  }

  lemma ConstBytes(v: i32)
    ensures |EncodeInstr(PushConst(v))| == 5
  {
  }

  lemma LogicTailBytes(e: Expr, base: int)
    requires e.AndAlso? || e.OrElse?
    ensures AllEncodable(LogicTail(e, base))
    ensures var no := RightBase(e, base) + ExprSize(e.r) + 15;
      Encode(LogicTail(e, base)) == Truth(U32(no), U32(no + 5))
  {
    hide EncodeInstr, Encode, U32;
    var no := RightBase(e, base) + ExprSize(e.r) + 15;
    Encode3(Jz(U32(no)), PushConst(1), Jmp(U32(no + 5)));
    EncodeOne(PushConst(0));
    assert LogicTail(e, base) == [Jz(U32(no)), PushConst(1), Jmp(U32(no + 5))] + [PushConst(0)];
    EncodeAppend([Jz(U32(no)), PushConst(1), Jmp(U32(no + 5))], [PushConst(0)]);
  }
}
