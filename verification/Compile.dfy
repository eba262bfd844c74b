/** The compiler's entry point: header, statements, epilogue, instruction
    count. */
module Compile {
  import opened Basics
  import opened Bytecode
  import opened Source
  import opened CodeGen
  import opened SimulateStmt
  import opened Toycc
  import opened Patching
  import opened Emitter
  import opened Placeholders

  /** The programs the compiler accepts into a buffer of `cap` bytes. */
  predicate Accepted(ss: Stmts, cap: nat) {
    ss.Cons? && 8 + ProgramSize(ss) <= cap && ListLoopsFit(ss, 0) && !AnyBreak(ss) && !AnyContinue(ss)
  }

  lemma {:induction false} SitesIffJumps(s: Stmt)
    ensures SiteCount(s, true) > 0 <==> HasBreak(s)
    ensures SiteCount(s, false) > 0 <==> HasContinue(s)
    decreases s
  {
    match s
    case Block(ss) => ListSitesIffJumps(ss);
    case If(_, t) => SitesIffJumps(t);
    case IfElse(_, t, e) => SitesIffJumps(t); SitesIffJumps(e);
    case _ =>
  }

  lemma {:induction false} ListSitesIffJumps(ss: Stmts)
    ensures ListSiteCount(ss, true) > 0 <==> AnyBreak(ss)
    ensures ListSiteCount(ss, false) > 0 <==> AnyContinue(ss)
    decreases ss
  {
    if ss.Cons? {
      SitesIffJumps(ss.head);
      ListSitesIffJumps(ss.tail);
    }
  }

  lemma ProgramBytes(ss: Stmts)
    requires StmtsOk(ss)
    ensures AllEncodable(GenProgram(ss))
    ensures Encode(GenProgram(ss)) == StmtsBytes(ss, 0, 0, 0) +
      (if AnyReturn(ss) then [] else EncodeInstr(PushConst(0)) + EncodeInstr(Ret))
  {
    hide Encode, EncodeInstr, GenStmts, AnyReturn, AllEncodable;
    GenEncodable(ss);
    EncodableStmts(ss, 0, 0, 0);
    NoInstrs();
    Encode2(PushConst(0), Ret);
    EncodeAppend(GenStmts(ss, 0, 0, 0), if AnyReturn(ss) then [] else [PushConst(0), Ret]);
  }

  lemma NoInstrs()
    ensures AllEncodable([]) && Encode([]) == []
  {
  }

  /** Filling in the instruction count leaves magic and code alone. */
  lemma HeaderPatched(code: seq<byte>, n: u32)
    ensures |MAGIC + U32Bytes(0) + code| == 8 + |code|
    ensures Patched(MAGIC + U32Bytes(0) + code, 4, n) == MAGIC + U32Bytes(n) + code
  {
    hide U32Bytes;
    FourBytes(0);
    var s := MAGIC + U32Bytes(0) + code;
    assert s[..4] == MAGIC && s[8..] == code;
  }

  /** The statements and, when the text has no return, `return 0`. */
  method EmitProgram(ctx: Context, ss: Stmts) returns (ok: bool)
    requires ctx.Valid() && ctx.pos == 8 && ctx.count == 0 && ctx.loops == [] && StmtsOk(ss)
    modifies ctx, ctx.out
    ensures ctx.Valid()
    ensures ok <==> Accepted(ss, ctx.out.Length)
    ensures AllEncodable(GenProgram(ss))
    ensures ok ==> ctx.pos == 8 + ProgramSize(ss) && ctx.count == |GenProgram(ss)|
    ensures ok ==> ctx.Done() == old(ctx.Done()) + Encode(GenProgram(ss))
    ensures ok ==> ctx.fills == old(ctx.fills) + ListFills(ss, 8, ctx.watched)
  {
    hide Encode, EncodeInstr, GenStmts, AnyReturn, StmtsBytes, StmtsSize, ListLoopsFit, AllEncodable;
    ghost var done, body := ctx.Done(), StmtsBytes(ss, 0, 0, 0);
    ProgramBytes(ss);
    ListSitesIffJumps(ss);
    var saw;
    ok, saw := ctx.EmitStmts(ss, false);
    if ss.Nil? {
      ok := false;
    }
    if ok {
      if !saw {
        ok := ctx.EmitPushConst(0);
        if ok { ok := ctx.EmitPlain(Ret); }
        ThreeParts(done, body, EncodeInstr(PushConst(0)), EncodeInstr(Ret));
        TwoParts(body, EncodeInstr(PushConst(0)), EncodeInstr(Ret));
      } else {
        NoPost(body);
      }
    }
  }

  /** In an accepted program every operand of a jump is filled in exactly once,
      unless its target was known when it was emitted, and nothing else is
      filled in: a position is filled as often as it is an operand, less the
      jumps back to the top of a loop. */
  lemma {:induction false} OperandsFilled(ss: Stmts, cap: nat, p: int)
    requires Accepted(ss, cap)
    ensures ListFills(ss, 8, p) + ListBacks(ss, 8, p) <= 1
    ensures var ins := GenProgram(ss);
      ListFills(ss, 8, p) + ListBacks(ss, 8, p) == 1 <==>
        exists k: nat :: k < |ins| && (ins[k].Jmp? || ins[k].Jz?) && p == 8 + Size(ins[..k]) + 1
  {
    hide GenStmts, Size, ListSites, ListLoopsFit, StmtsSize, ListFills, ListBacks;
    FilledOnce(ss, 0, 0, 0, 8, p);
    ListSitesIffJumps(ss);
    ListSitesCounted(ss, 8, true);
    ListSitesCounted(ss, 8, false);
    NotListed(p);
    var body, ins := GenStmts(ss, 0, 0, 0), GenProgram(ss);
    forall k: nat | k < |ins| ensures ins[k].Jmp? || ins[k].Jz? ==> k < |body| && ins[k] == body[k] && ins[..k] == body[..k] {
      if k < |body| {
        assert ins[..k] == body[..k];
      }
    }
    forall k: nat | k < |body| ensures ins[k] == body[k] && ins[..k] == body[..k] {
    }
  }

  /** A context with the magic and a count still to be filled in. */
  method Open(out: array<byte>) returns (ctx: Context)
    requires out.Length >= 8
    modifies out
    ensures fresh(ctx) && ctx.out == out && ctx.Valid() && ctx.pos == 8 && ctx.count == 0 && ctx.loops == []
    ensures ctx.Done() == MAGIC + U32Bytes(0)
  {
    hide U32Bytes;
    ctx := new Context(out, 8, 0);
    out[0], out[1], out[2], out[3] := 0x54, 0x43, 0x43, 0x30;
    ctx.WriteU32(4, 0);
    FourBytes(0);
  }

  /** Compile into `out`.  On success the buffer holds the program file of the
      statements: every placeholder has been filled in and the header counts
      the instructions, those merged from step buffers included. */
  method CompileBuffer(ss: Stmts, out: array<byte>) returns (ok: bool, outLen: nat)
    requires StmtsOk(ss)
    modifies out
    ensures ok <==> Accepted(ss, out.Length)
    ensures ok ==> outLen == 8 + ProgramSize(ss) && outLen <= out.Length
    ensures AllEncodable(GenProgram(ss))
    ensures ok ==> out[..outLen] == FileOf(GenProgram(ss))
  {
    hide Encode, GenProgram, AnyReturn, U32, U32Bytes, StmtsSize, ListLoopsFit, Patched, AllEncodable, ListFills;
    GenEncodable(ss);
    ok, outLen := false, 0;
    if out.Length < 8 {
      return;
    }
    var ctx := Open(out);
    ok := EmitProgram(ctx, ss);
    if ok {
      HeaderPatched(Encode(GenProgram(ss)), U32(ctx.count));
      ctx.PatchU32(4, U32(ctx.count));
      outLen := ctx.pos;
    }
  }
}
