/** The bytes of compiled code, and what filling in a jump operand does to
    them. */
module Patching {
  import opened Basics
  import opened Bytecode
  import opened Source
  import opened CodeGen
  import opened Toycc

  // ----- bytes of the pieces -----

  function ExprBytes(e: Expr, base: int): seq<byte> {
    EncodableExpr(e, base);
    Encode(GenExpr(e, base))
  }

  function DeclsBytes(ds: Decls, base: int): seq<byte> {
    EncodableDecls(ds, base);
    Encode(GenDecls(ds, base))
  }

  function StmtBytes(s: Stmt, base: int, brk: u32, cont: u32): seq<byte>
    requires StmtOk(s)
  {
    EncodableStmt(s, base, brk, cont);
    Encode(GenStmt(s, base, brk, cont))
  }

  function StmtsBytes(ss: Stmts, base: int, brk: u32, cont: u32): seq<byte>
    requires StmtsOk(ss)
  {
    EncodableStmts(ss, base, brk, cont);
    Encode(GenStmts(ss, base, brk, cont))
  }

  lemma EncodeOne(i: Instr)
    requires Encodable(i)
    ensures AllEncodable([i]) && Encode([i]) == EncodeInstr(i)
  {
    hide EncodeInstr;
    assert [i][1..] == [];
    assert Encode([]) == [];
    assert EncodeInstr(i) + [] == EncodeInstr(i);
  }

  lemma Encode2(a: Instr, b: Instr)
    requires Encodable(a) && Encodable(b)
    ensures AllEncodable([a, b]) && Encode([a, b]) == EncodeInstr(a) + EncodeInstr(b)
  {
    hide EncodeInstr, Encode;
    EncodeOne(a);
    EncodeOne(b);
    assert [a, b] == [a] + [b];
    EncodeAppend([a], [b]);
  }

  lemma Encode3(a: Instr, b: Instr, c: Instr)
    requires Encodable(a) && Encodable(b) && Encodable(c)
    ensures AllEncodable([a, b, c])
    ensures Encode([a, b, c]) == EncodeInstr(a) + EncodeInstr(b) + EncodeInstr(c)
  {
    hide EncodeInstr, Encode;
    Encode2(a, b);
    EncodeOne(c);
    assert [a, b, c] == [a, b] + [c];
    EncodeAppend([a, b], [c]);
  }

  lemma Encode5(a: Instr, b: Instr, c: Instr, d: Instr, e: Instr)
    requires Encodable(a) && Encodable(b) && Encodable(c) && Encodable(d) && Encodable(e)
    ensures AllEncodable([a, b, c, d, e])
    ensures Encode([a, b, c, d, e]) ==
      EncodeInstr(a) + EncodeInstr(b) + EncodeInstr(c) + EncodeInstr(d) + EncodeInstr(e)
  {
    hide EncodeInstr, Encode;
    Encode3(a, b, c);
    Encode2(d, e);
    assert [a, b, c, d, e] == [a, b, c] + [d, e];
    EncodeAppend([a, b, c], [d, e]);
    assert (EncodeInstr(a) + EncodeInstr(b) + EncodeInstr(c)) + (EncodeInstr(d) + EncodeInstr(e)) ==
      EncodeInstr(a) + EncodeInstr(b) + EncodeInstr(c) + EncodeInstr(d) + EncodeInstr(e);
  }

  lemma ExprBytesSize(e: Expr, base: int)
    ensures |ExprBytes(e, base)| == ExprSize(e)
  {
    hide GenExpr, Encode, Size;
    EncodableExpr(e, base);
    EncodeSize(GenExpr(e, base));
    GenExprSize(e, base);
  }

  lemma StmtBytesSize(s: Stmt, base: int, brk: u32, cont: u32)
    requires StmtOk(s)
    ensures |StmtBytes(s, base, brk, cont)| == StmtSize(s)
  {
    hide GenStmt, Encode, Size;
    EncodableStmt(s, base, brk, cont);
    EncodeSize(GenStmt(s, base, brk, cont));
    GenStmtSize(s, base, brk, cont);
  }

  lemma SplitUnary(e: Expr, base: int)
    requires e.LogNot? || e.Minus? || e.Assign?
    ensures ExprBytes(e, base) == ExprBytes(e.e, base) + Encode(UnaryTail(e))
    ensures |GenExpr(e, base)| == |GenExpr(e.e, base)| + |UnaryTail(e)|
  {
    hide GenExpr, Encode;
    UnfoldUnary(e, base);
    EncodableExpr(e.e, base);
    EncodeAppend(GenExpr(e.e, base), UnaryTail(e));
  }

  lemma SplitBin(e: Expr, base: int)
    requires e.Bin?
    ensures var right := base + ExprSize(e.l);
      ExprBytes(e, base) == ExprBytes(e.l, base) + ExprBytes(e.r, right) + EncodeInstr(Arith(e.op)) &&
      |GenExpr(e, base)| == |GenExpr(e.l, base)| + |GenExpr(e.r, right)| + 1
  {
    hide GenExpr, Encode, EncodeInstr;
    var right := base + ExprSize(e.l);
    UnfoldBin(e, base);
    EncodableExpr(e.l, base);
    EncodableExpr(e.r, right);
    EncodeOne(Arith(e.op));
    EncodeAppend(GenExpr(e.r, right), [Arith(e.op)]);
    EncodeAppend(GenExpr(e.l, base), GenExpr(e.r, right) + [Arith(e.op)]);
    assert ExprBytes(e.l, base) + (ExprBytes(e.r, right) + EncodeInstr(Arith(e.op))) ==
      ExprBytes(e.l, base) + ExprBytes(e.r, right) + EncodeInstr(Arith(e.op));
  }

  lemma SplitUpdate(e: Expr, base: int)
    requires e.Update?
    ensures ExprBytes(e, base) == EncodeInstr(PushVar(e.x)) + ExprBytes(e.e, base + 2) +
      (EncodeInstr(Arith(e.op)) + EncodeInstr(Dup) + EncodeInstr(StoreVar(e.x)))
    ensures |GenExpr(e, base)| == |GenExpr(e.e, base + 2)| + 4
  {
    hide GenExpr, Encode, EncodeInstr;
    var tail := [Arith(e.op), Dup, StoreVar(e.x)];
    UnfoldUpdate(e, base);
    EncodableExpr(e.e, base + 2);
    EncodeOne(PushVar(e.x));
    Encode3(Arith(e.op), Dup, StoreVar(e.x));
    EncodeAppend(GenExpr(e.e, base + 2), tail);
    EncodeAppend([PushVar(e.x)], GenExpr(e.e, base + 2) + tail);
    assert EncodeInstr(PushVar(e.x)) + (ExprBytes(e.e, base + 2) + Encode(tail)) ==
      EncodeInstr(PushVar(e.x)) + ExprBytes(e.e, base + 2) + Encode(tail);
  }

  lemma SplitLogic(e: Expr, base: int)
    requires e.AndAlso? || e.OrElse?
    ensures AllEncodable(LogicMid(e, base)) && AllEncodable(LogicTail(e, base))
    ensures ExprBytes(e, base) == ExprBytes(e.l, base) + Encode(LogicMid(e, base)) +
      ExprBytes(e.r, RightBase(e, base)) + Encode(LogicTail(e, base))
    ensures |GenExpr(e, base)| == |GenExpr(e.l, base)| + |LogicMid(e, base)| +
      |GenExpr(e.r, RightBase(e, base))| + 4
  {
    hide GenExpr, Encode, EncodeInstr;
    var rhs := RightBase(e, base);
    UnfoldLogic(e, base);
    EncodableExpr(e.l, base);
    EncodableExpr(e.r, rhs);
    var m, t := LogicMid(e, base), LogicTail(e, base);
    EncodeAppend(GenExpr(e.r, rhs), t);
    EncodeAppend(m, GenExpr(e.r, rhs) + t);
    EncodeAppend(GenExpr(e.l, base), m + (GenExpr(e.r, rhs) + t));
    assert ExprBytes(e.l, base) + (Encode(m) + (ExprBytes(e.r, rhs) + Encode(t))) ==
      ExprBytes(e.l, base) + Encode(m) + ExprBytes(e.r, rhs) + Encode(t);
  }

  // ----- patching -----

  /** Overwrite the 32-bit operand at position `p`. */
  function Patched(s: seq<byte>, p: nat, v: u32): seq<byte>
    requires p + 4 <= |s|
  {
    s[..p] + U32Bytes(v) + s[p + 4..]
  }

  function Retarget(j: Instr, v: u32): Instr
    requires j.Jmp? || j.Jz?
  {
    if j.Jmp? then Jmp(v) else Jz(v)
  }

  /** Filling in a jump changes that jump's operand and nothing else. */
  lemma PatchJump(pre: seq<byte>, j: Instr, post: seq<byte>, v: u32)
    requires j.Jmp? || j.Jz?
    ensures |pre| + 5 <= |pre + EncodeInstr(j) + post|
    ensures Patched(pre + EncodeInstr(j) + post, |pre| + 1, v) == pre + EncodeInstr(Retarget(j, v)) + post
  {
    hide U32Bytes;
    var op: byte := if j.Jmp? then 17 else 18;
    var s := pre + EncodeInstr(j) + post;
    var w := if j.Jmp? then j.target else j.target;
    assert EncodeInstr(j) == [op] + U32Bytes(w);
    assert |U32Bytes(w)| == 4 && |U32Bytes(v)| == 4 by { FourBytes(w); FourBytes(v); }
    assert s[..|pre| + 1] == pre + [op];
    assert s[|pre| + 5..] == post;
    assert EncodeInstr(Retarget(j, v)) == [op] + U32Bytes(v);
    assert pre + [op] + U32Bytes(v) + post == pre + ([op] + U32Bytes(v)) + post;
  }

  lemma FourBytes(v: u32)
    ensures |U32Bytes(v)| == 4
  {
  }

  function PatchAll(s: seq<byte>, sites: seq<nat>, v: u32): (r: seq<byte>)
    requires forall k :: 0 <= k < |sites| ==> sites[k] + 4 <= |s|
    ensures |r| == |s|
    decreases |sites|
  {
    if sites == [] then s else PatchAll(Patched(s, sites[0], v), sites[1..], v)
  }

  lemma {:induction false} PatchAllAppend(s: seq<byte>, a: seq<nat>, b: seq<nat>, v: u32)
    requires forall k :: 0 <= k < |a| ==> a[k] + 4 <= |s|
    requires forall k :: 0 <= k < |b| ==> b[k] + 4 <= |s|
    ensures PatchAll(s, a + b, v) == PatchAll(PatchAll(s, a, v), b, v)
    decreases |a|
  {
    if a == [] {
      assert a + b == b;
    } else {
      assert (a + b)[1..] == a[1..] + b;
      PatchAllAppend(Patched(s, a[0], v), a[1..], b, v);
    }
  }

  /** The operand positions of the break (or continue) jumps of `s` that
      belong to the loop around it, in emission order; `at` is the output
      position at which `s` starts. */
  function Sites(s: Stmt, at: nat, brk: bool): seq<nat> {
    match s
    case Break => if brk then [at + 1] else []
    case Continue => if brk then [] else [at + 1]
    case Block(ss) => ListSites(ss, at, brk)
    case If(c, t) => Sites(t, at + ExprSize(c) + 5, brk)
    case IfElse(c, t, e) =>
      Sites(t, at + ExprSize(c) + 5, brk) + Sites(e, at + ExprSize(c) + 5 + StmtSize(t) + 5, brk)
    case _ => []
  }

  function ListSites(ss: Stmts, at: nat, brk: bool): seq<nat> {
    match ss
    case Nil => []
    case Cons(s, rest) => Sites(s, at, brk) + ListSites(rest, at + StmtSize(s), brk)
  }

  /** How many jumps a statement adds to the loop's patch list. */
  function SiteCount(s: Stmt, brk: bool): nat {
    match s
    case Break => if brk then 1 else 0
    case Continue => if brk then 0 else 1
    case Block(ss) => ListSiteCount(ss, brk)
    case If(c, t) => SiteCount(t, brk)
    case IfElse(c, t, e) => SiteCount(t, brk) + SiteCount(e, brk)
    case _ => 0
  }

  function ListSiteCount(ss: Stmts, brk: bool): nat {
    match ss
    case Nil => 0
    case Cons(s, rest) => SiteCount(s, brk) + ListSiteCount(rest, brk)
  }

  lemma {:induction false} SitesCounted(s: Stmt, at: nat, brk: bool)
    ensures |Sites(s, at, brk)| == SiteCount(s, brk)
    ensures forall k :: 0 <= k < |Sites(s, at, brk)| ==> at < Sites(s, at, brk)[k] && Sites(s, at, brk)[k] + 4 <= at + StmtSize(s)
    decreases s
  {
    hide ExprSize;
    match s
    case Block(ss) => ListSitesCounted(ss, at, brk);
    case If(c, t) => SitesCounted(t, at + ExprSize(c) + 5, brk);
    case IfElse(c, t, e) =>
      SitesCounted(t, at + ExprSize(c) + 5, brk);
      SitesCounted(e, at + ExprSize(c) + 5 + StmtSize(t) + 5, brk);
    case _ =>
  }

  lemma {:induction false} ListSitesCounted(ss: Stmts, at: nat, brk: bool)
    ensures |ListSites(ss, at, brk)| == ListSiteCount(ss, brk)
    ensures forall k :: 0 <= k < |ListSites(ss, at, brk)| ==>
      at < ListSites(ss, at, brk)[k] && ListSites(ss, at, brk)[k] + 4 <= at + StmtsSize(ss)
    decreases ss
  {
    if ss.Cons? {
      SitesCounted(ss.head, at, brk);
      ListSitesCounted(ss.tail, at + StmtSize(ss.head), brk);
    }
  }

  lemma SplitBranch(s: Stmt, base: int, brk: u32, cont: u32)
    requires StmtOk(s) && (s.If? || s.IfElse?)
    ensures var body := base + ExprSize(s.cond) + 5;
      var other := body + StmtSize(s.thn) + if s.If? then 0 else 5;
      StmtBytes(s, base, brk, cont) ==
        ExprBytes(s.cond, base) + EncodeInstr(Jz(U32(other))) + StmtBytes(s.thn, body, brk, cont) +
        (if s.If? then []
         else EncodeInstr(Jmp(U32(other + StmtSize(s.els)))) + StmtBytes(s.els, other, brk, cont))
    ensures var body := base + ExprSize(s.cond) + 5;
      |GenStmt(s, base, brk, cont)| == |GenExpr(s.cond, base)| + 1 + |GenStmt(s.thn, body, brk, cont)| +
        (if s.If? then 0 else 1 + |GenStmt(s.els, body + StmtSize(s.thn) + 5, brk, cont)|)
  {
    hide GenExpr, ExprSize, Encode, EncodeInstr, U32, AllEncodable;
    var body := base + ExprSize(s.cond) + 5;
    var other := body + StmtSize(s.thn) + if s.If? then 0 else 5;
    var c, t := GenExpr(s.cond, base), GenStmt(s.thn, body, brk, cont);
    var jz := Jz(U32(other));
    EncodableExpr(s.cond, base);
    EncodableStmt(s.thn, body, brk, cont);
    EncodeOne(jz);
    if s.If? {
      JoinThree(c, [jz], t);
      assert ExprBytes(s.cond, base) + EncodeInstr(jz) + StmtBytes(s.thn, body, brk, cont) + [] ==
        ExprBytes(s.cond, base) + EncodeInstr(jz) + StmtBytes(s.thn, body, brk, cont);
    } else {
      var jmp := Jmp(U32(other + StmtSize(s.els)));
      var e := GenStmt(s.els, other, brk, cont);
      EncodableStmt(s.els, other, brk, cont);
      EncodeOne(jmp);
      JoinThree(t, [jmp], e);
      JoinThree(c, [jz], t + ([jmp] + e));
      var A, B, C, D := Encode(c) + EncodeInstr(jz), Encode(t), EncodeInstr(jmp), Encode(e);
      assert A + (B + C + D) == A + B + (C + D);
    }
  }

  lemma JoinThree(a: seq<Instr>, b: seq<Instr>, c: seq<Instr>)
    requires AllEncodable(a) && AllEncodable(b) && AllEncodable(c)
    ensures AllEncodable(a + (b + c))
    ensures Encode(a + (b + c)) == Encode(a) + Encode(b) + Encode(c)
  {
    hide Encode;
    EncodeAppend(b, c);
    EncodeAppend(a, b + c);
    assert Encode(a) + (Encode(b) + Encode(c)) == Encode(a) + Encode(b) + Encode(c);
  }

  lemma SplitList(ss: Stmts, base: int, brk: u32, cont: u32)
    requires StmtsOk(ss) && ss.Cons?
    ensures StmtsBytes(ss, base, brk, cont) ==
      StmtBytes(ss.head, base, brk, cont) + StmtsBytes(ss.tail, base + StmtSize(ss.head), brk, cont)
    ensures |GenStmts(ss, base, brk, cont)| ==
      |GenStmt(ss.head, base, brk, cont)| + |GenStmts(ss.tail, base + StmtSize(ss.head), brk, cont)|
  {
    hide GenStmt, StmtSize, Encode, AllEncodable;
    EncodableStmt(ss.head, base, brk, cont);
    EncodableStmts(ss.tail, base + StmtSize(ss.head), brk, cont);
    EncodeAppend(GenStmt(ss.head, base, brk, cont), GenStmts(ss.tail, base + StmtSize(ss.head), brk, cont));
  }

  /** A statement with `v` in place of `x` as the loop's break or continue
      operand. */
  function Retargeted(s: Stmt, base: int, brk: bool, v: u32, o: u32): seq<byte>
    requires StmtOk(s)
  {
    if brk then StmtBytes(s, base, v, o) else StmtBytes(s, base, o, v)
  }

  function ListRetargeted(ss: Stmts, base: int, brk: bool, v: u32, o: u32): seq<byte>
    requires StmtsOk(ss)
  {
    if brk then StmtsBytes(ss, base, v, o) else StmtsBytes(ss, base, o, v)
  }

  lemma RetargetedSize(s: Stmt, base: int, brk: bool, v: u32, o: u32)
    requires StmtOk(s)
    ensures |Retargeted(s, base, brk, v, o)| == StmtSize(s)
  {
    if brk { StmtBytesSize(s, base, v, o); } else { StmtBytesSize(s, base, o, v); }
  }

  ghost predicate InBounds(sites: seq<nat>, s: seq<byte>) {
    forall k :: 0 <= k < |sites| ==> sites[k] + 4 <= |s|
  }

  /** Filling in a patch list turns code compiled with placeholder `x` into
      code compiled with the final target, wherever it stands in the output. */
  lemma {:induction false} PatchSites(pre: seq<byte>, s: Stmt, base: int, brk: bool, x: u32, v: u32, o: u32, post: seq<byte>)
    requires StmtOk(s)
    ensures InBounds(Sites(s, |pre|, brk), pre + Retargeted(s, base, brk, x, o) + post)
    ensures PatchAll(pre + Retargeted(s, base, brk, x, o) + post, Sites(s, |pre|, brk), v) ==
      pre + Retargeted(s, base, brk, v, o) + post
    decreases s, 1
  {
    hide PatchAll, StmtBytes;
    SitesCounted(s, |pre|, brk);
    RetargetedSize(s, base, brk, x, o);
    if s.Block? {
      PatchBlock(pre, s, base, brk, x, v, o, post);
    } else if s.Break? || s.Continue? {
      PatchBreak(pre, s, base, brk, x, v, o, post);
    } else if s.If? || s.IfElse? {
      PatchBranch(pre, s, base, brk, x, v, o, post);
    } else {
      SameBytes(s, base, brk, x, v, o);
      PatchNone(pre + Retargeted(s, base, brk, x, o) + post, v);
    }
  }

  lemma PatchNone(s: seq<byte>, v: u32)
    ensures PatchAll(s, [], v) == s
  {
  }

  lemma PatchOne(s: seq<byte>, p: nat, v: u32)
    requires p + 4 <= |s|
    ensures PatchAll(s, [p], v) == Patched(s, p, v)
  {
    assert [p][1..] == [];
  }

  lemma PatchBreak(pre: seq<byte>, s: Stmt, base: int, brk: bool, x: u32, v: u32, o: u32, post: seq<byte>)
    requires s.Break? || s.Continue?
    requires InBounds(Sites(s, |pre|, brk), pre + Retargeted(s, base, brk, x, o) + post)
    ensures PatchAll(pre + Retargeted(s, base, brk, x, o) + post, Sites(s, |pre|, brk), v) ==
      pre + Retargeted(s, base, brk, v, o) + post
  {
    hide PatchAll, Encode, EncodeInstr;
    EncodeOne(Jmp(x));
    EncodeOne(Jmp(v));
    EncodeOne(Jmp(o));
    var whole := pre + Retargeted(s, base, brk, x, o) + post;
    if s.Break? == brk {
      PatchJump(pre, Jmp(x), post, v);
      PatchOne(whole, |pre| + 1, v);
    } else {
      PatchNone(whole, v);
    }
  }

  lemma SameBytes(s: Stmt, base: int, brk: bool, x: u32, v: u32, o: u32)
    requires StmtOk(s) && !s.Block? && !s.Break? && !s.Continue? && !s.If? && !s.IfElse?
    ensures Retargeted(s, base, brk, x, o) == Retargeted(s, base, brk, v, o)
  {
    hide Encode, GenExpr, U32, ExprSize;
    var a, b := if brk then (x, o) else (o, x), if brk then (v, o) else (o, v);
    assert GenStmt(s, base, a.0, a.1) == GenStmt(s, base, b.0, b.1);
  }

  lemma {:induction false} PatchBlock(pre: seq<byte>, s: Stmt, base: int, brk: bool, x: u32, v: u32, o: u32, post: seq<byte>)
    requires StmtOk(s) && s.Block?
    requires InBounds(Sites(s, |pre|, brk), pre + Retargeted(s, base, brk, x, o) + post)
    ensures PatchAll(pre + Retargeted(s, base, brk, x, o) + post, Sites(s, |pre|, brk), v) ==
      pre + Retargeted(s, base, brk, v, o) + post
    decreases s, 0
  {
    hide PatchAll, Encode;
    PatchList(pre, s.body, base, brk, x, v, o, post);
  }

  lemma {:induction false} PatchList(pre: seq<byte>, ss: Stmts, base: int, brk: bool, x: u32, v: u32, o: u32, post: seq<byte>)
    requires StmtsOk(ss)
    ensures InBounds(ListSites(ss, |pre|, brk), pre + ListRetargeted(ss, base, brk, x, o) + post)
    ensures PatchAll(pre + ListRetargeted(ss, base, brk, x, o) + post, ListSites(ss, |pre|, brk), v) ==
      pre + ListRetargeted(ss, base, brk, v, o) + post
    decreases ss, 1
  {
    hide PatchAll, StmtsBytes, StmtBytes, Sites, StmtSize, StmtOk;
    if ss.Nil? {
      EmptyList(base, x, o);
      EmptyList(base, o, x);
      EmptyList(base, v, o);
      EmptyList(base, o, v);
      PatchNone(pre + ListRetargeted(ss, base, brk, x, o) + post, v);
    } else {
      PatchCons(pre, ss, base, brk, x, v, o, post);
    }
  }

  lemma EmptyList(base: int, a: u32, b: u32)
    ensures StmtsBytes(Nil, base, a, b) == []
  {
  }

  lemma {:induction false} PatchCons(pre: seq<byte>, ss: Stmts, base: int, brk: bool, x: u32, v: u32, o: u32, post: seq<byte>)
    requires StmtsOk(ss) && ss.Cons?
    ensures InBounds(ListSites(ss, |pre|, brk), pre + ListRetargeted(ss, base, brk, x, o) + post)
    ensures PatchAll(pre + ListRetargeted(ss, base, brk, x, o) + post, ListSites(ss, |pre|, brk), v) ==
      pre + ListRetargeted(ss, base, brk, v, o) + post
    decreases ss, 0
  {
    hide PatchAll, StmtsBytes, StmtBytes, Sites, StmtSize, StmtOk;
    var next := base + StmtSize(ss.head);
    SplitListR(ss, base, brk, x, o);
    SplitListR(ss, base, brk, v, o);
    var h, h' := Retargeted(ss.head, base, brk, x, o), Retargeted(ss.head, base, brk, v, o);
    var t, t' := ListRetargeted(ss.tail, next, brk, x, o), ListRetargeted(ss.tail, next, brk, v, o);
    RetargetedSize(ss.head, base, brk, x, o);
    RetargetedSize(ss.head, base, brk, v, o);
    var whole := pre + (h + t) + post;
    assert whole == pre + h + (t + post);
    PatchSites(pre, ss.head, base, brk, x, v, o, t + post);
    assert pre + h' + (t + post) == (pre + h') + t + post;
    PatchList(pre + h', ss.tail, next, brk, x, v, o, post);
    PatchAllAppend(whole, Sites(ss.head, |pre|, brk), ListSites(ss.tail, |pre| + StmtSize(ss.head), brk), v);
    assert (pre + h') + t' + post == pre + (h' + t') + post;
  }

  lemma SplitListR(ss: Stmts, base: int, brk: bool, v: u32, o: u32)
    requires StmtsOk(ss) && ss.Cons?
    ensures ListRetargeted(ss, base, brk, v, o) ==
      Retargeted(ss.head, base, brk, v, o) + ListRetargeted(ss.tail, base + StmtSize(ss.head), brk, v, o)
  {
    hide StmtsBytes, StmtBytes, StmtSize;
    if brk { SplitList(ss, base, v, o); } else { SplitList(ss, base, o, v); }
  }

  lemma SplitBranchR(s: Stmt, base: int, brk: bool, v: u32, o: u32)
    requires StmtOk(s) && (s.If? || s.IfElse?)
    ensures var body := base + ExprSize(s.cond) + 5;
      var other := body + StmtSize(s.thn) + if s.If? then 0 else 5;
      Retargeted(s, base, brk, v, o) ==
        ExprBytes(s.cond, base) + EncodeInstr(Jz(U32(other))) + Retargeted(s.thn, body, brk, v, o) +
        (if s.If? then []
         else EncodeInstr(Jmp(U32(other + StmtSize(s.els)))) + Retargeted(s.els, other, brk, v, o))
  {
    hide StmtBytes, StmtSize, U32, ExprBytes, EncodeInstr, ExprSize;
    if brk { SplitBranch(s, base, v, o); } else { SplitBranch(s, base, o, v); }
  }

  lemma {:induction false} PatchBranch(pre: seq<byte>, s: Stmt, base: int, brk: bool, x: u32, v: u32, o: u32, post: seq<byte>)
    requires StmtOk(s) && (s.If? || s.IfElse?)
    requires InBounds(Sites(s, |pre|, brk), pre + Retargeted(s, base, brk, x, o) + post)
    ensures PatchAll(pre + Retargeted(s, base, brk, x, o) + post, Sites(s, |pre|, brk), v) ==
      pre + Retargeted(s, base, brk, v, o) + post
    decreases s, 0
  {
    hide PatchAll, StmtBytes, U32, ExprBytes, EncodeInstr, ExprSize, Retargeted, StmtSize;
    var body := base + ExprSize(s.cond) + 5;
    var other := body + StmtSize(s.thn) + if s.If? then 0 else 5;
    SplitBranchR(s, base, brk, x, o);
    SplitBranchR(s, base, brk, v, o);
    ExprBytesSize(s.cond, base);
    JumpBytes(Jz(U32(other)));
    var head := ExprBytes(s.cond, base) + EncodeInstr(Jz(U32(other)));
    var pre1 := pre + head;
    var t, t' := Retargeted(s.thn, body, brk, x, o), Retargeted(s.thn, body, brk, v, o);
    RetargetedSize(s.thn, body, brk, v, o);
    if s.If? {
      HeadFirst(pre, head, t, [], post);
      HeadFirst(pre, head, t', [], post);
      assert [] + post == post;
      PatchSites(pre1, s.thn, body, brk, x, v, o, post);
    } else {
      var jmp := EncodeInstr(Jmp(U32(other + StmtSize(s.els))));
      JumpBytes(Jmp(U32(other + StmtSize(s.els))));
      var e, e' := Retargeted(s.els, other, brk, x, o), Retargeted(s.els, other, brk, v, o);
      HeadFirst(pre, head, t, jmp + e, post);
      HeadFirst(pre, head, t', jmp + e', post);
      var whole := pre1 + t + (jmp + e + post);
      PatchSites(pre1, s.thn, body, brk, x, v, o, jmp + e + post);
      var pre2 := pre1 + t' + jmp;
      JumpBetween(pre1, t', jmp, e, post);
      JumpBetween(pre1, t', jmp, e', post);
      PatchSites(pre2, s.els, other, brk, x, v, o, post);
      PatchAllAppend(whole, Sites(s.thn, |pre1|, brk), Sites(s.els, |pre2|, brk), v);
    }
  }

  lemma HeadFirst(pre: seq<byte>, head: seq<byte>, t: seq<byte>, rest: seq<byte>, post: seq<byte>)
    ensures pre + (head + t + rest) + post == pre + head + t + (rest + post)
  {
  }

  lemma JumpBetween(pre: seq<byte>, t: seq<byte>, jmp: seq<byte>, e: seq<byte>, post: seq<byte>)
    ensures pre + t + (jmp + e + post) == pre + t + jmp + e + post
  {
  }

  lemma JumpBytes(j: Instr)
    requires j.Jmp? || j.Jz?
    ensures |EncodeInstr(j)| == 5
  {
  }

  // ----- loops, declarations and simple statements -----

  lemma SplitSnoc(e: Expr, i: Instr, base: int)
    requires Encodable(i)
    ensures AllEncodable(GenExpr(e, base) + [i])
    ensures Encode(GenExpr(e, base) + [i]) == ExprBytes(e, base) + EncodeInstr(i)
  {
    hide GenExpr, Encode, EncodeInstr;
    EncodableExpr(e, base);
    EncodeOne(i);
    EncodeAppend(GenExpr(e, base), [i]);
  }

  lemma SplitDecl(ds: Decls, base: int)
    requires ds.Declare? && ds.init.Some?
    ensures var e := ds.init.value;
      DeclsBytes(ds, base) == ExprBytes(e, base) + EncodeInstr(StoreVar(ds.x)) + DeclsBytes(ds.rest, base + ExprSize(e) + 2) &&
      |GenDecls(ds, base)| == |GenExpr(e, base)| + 1 + |GenDecls(ds.rest, base + ExprSize(e) + 2)|
  {
    hide GenExpr, Encode, EncodeInstr, ExprSize, AllEncodable;
    var e := ds.init.value;
    EncodableExpr(e, base);
    EncodableDecls(ds.rest, base + ExprSize(e) + 2);
    EncodeOne(StoreVar(ds.x));
    JoinThree(GenExpr(e, base), [StoreVar(ds.x)], GenDecls(ds.rest, base + ExprSize(e) + 2));
  }

  function ClauseBytes(c: Clause, base: int): seq<byte> {
    EncodableParts(c, None, None, base, 0, 0);
    Encode(GenClause(c, base))
  }

  function TestBytes(test: Option<Expr>, base: int, end: int): seq<byte> {
    EncodableParts(NoClause, test, None, 0, base, end);
    Encode(GenTest(test, base, end))
  }

  function StepBytes(step: Option<Expr>): seq<byte> {
    EncodableParts(NoClause, None, step, 0, 0, 0);
    Encode(GenStep(step))
  }

  lemma SplitWhile(s: Stmt, base: int, brk: u32, cont: u32)
    requires StmtOk(s) && s.While?
    ensures var body := base + ExprSize(s.cond) + 5;
      var end := U32(body + StmtSize(s.loopBody) + 5);
      StmtBytes(s, base, brk, cont) == ExprBytes(s.cond, base) + EncodeInstr(Jz(end)) +
        (StmtBytes(s.loopBody, body, end, U32(base)) + EncodeInstr(Jmp(U32(base)))) &&
      |GenStmt(s, base, brk, cont)| == |GenExpr(s.cond, base)| + |GenStmt(s.loopBody, body, end, U32(base))| + 2
  {
    hide GenExpr, ExprSize, Encode, EncodeInstr, U32, AllEncodable;
    var body := base + ExprSize(s.cond) + 5;
    var end := U32(body + StmtSize(s.loopBody) + 5);
    var b := GenStmt(s.loopBody, body, end, U32(base));
    EncodableExpr(s.cond, base);
    EncodableStmt(s.loopBody, body, end, U32(base));
    EncodeOne(Jz(end));
    EncodeOne(Jmp(U32(base)));
    EncodeAppend(b, [Jmp(U32(base))]);
    JoinThree(GenExpr(s.cond, base), [Jz(end)], b + [Jmp(U32(base))]);
  }

  lemma SplitDo(s: Stmt, base: int, brk: u32, cont: u32)
    requires StmtOk(s) && s.DoWhile?
    ensures var test := base + StmtSize(s.loopBody);
      var end := U32(test + ExprSize(s.cond) + 10);
      StmtBytes(s, base, brk, cont) == StmtBytes(s.loopBody, base, end, U32(test)) + ExprBytes(s.cond, test) +
        (EncodeInstr(Jz(end)) + EncodeInstr(Jmp(U32(base)))) &&
      |GenStmt(s, base, brk, cont)| == |GenStmt(s.loopBody, base, end, U32(test))| + |GenExpr(s.cond, test)| + 2
  {
    hide GenExpr, ExprSize, Encode, EncodeInstr, U32, AllEncodable;
    var test := base + StmtSize(s.loopBody);
    var end := U32(test + ExprSize(s.cond) + 10);
    EncodableExpr(s.cond, test);
    EncodableStmt(s.loopBody, base, end, U32(test));
    Encode2(Jz(end), Jmp(U32(base)));
    JoinThree(GenStmt(s.loopBody, base, end, U32(test)), GenExpr(s.cond, test), [Jz(end), Jmp(U32(base))]);
  }

  lemma SplitFor(s: Stmt, base: int, brk: u32, cont: u32)
    requires StmtOk(s) && s.For?
    ensures var top := base + ClauseSize(s.init);
      var body := top + TestSize(s.test);
      var next := body + StmtSize(s.loopBody);
      var end := next + StepSize(s.step) + 5;
      StmtBytes(s, base, brk, cont) == ClauseBytes(s.init, base) + TestBytes(s.test, top, end) +
        (StmtBytes(s.loopBody, body, U32(end), U32(next)) + StepBytes(s.step) + EncodeInstr(Jmp(U32(top)))) &&
      |GenStmt(s, base, brk, cont)| == |GenClause(s.init, base)| + |GenTest(s.test, top, end)| +
        |GenStmt(s.loopBody, body, U32(end), U32(next))| + |GenStep(s.step)| + 1
  {
    hide GenClause, GenTest, GenStep, ClauseSize, TestSize, StepSize, Encode, EncodeInstr, U32, AllEncodable;
    var top := base + ClauseSize(s.init);
    var body := top + TestSize(s.test);
    var next := body + StmtSize(s.loopBody);
    var end := next + StepSize(s.step) + 5;
    var b := GenStmt(s.loopBody, body, U32(end), U32(next));
    EncodableParts(s.init, s.test, s.step, base, top, end);
    EncodableStmt(s.loopBody, body, U32(end), U32(next));
    EncodeOne(Jmp(U32(top)));
    JoinThree(b, GenStep(s.step), [Jmp(U32(top))]);
    JoinThree(GenClause(s.init, base), GenTest(s.test, top, end), b + (GenStep(s.step) + [Jmp(U32(top))]));
  }

  /** The number of instructions does not depend on the jump operands. */
  lemma {:induction false} GenStmtLength(s: Stmt, base: int, a: u32, b: u32, c: u32, d: u32)
    ensures |GenStmt(s, base, a, b)| == |GenStmt(s, base, c, d)|
    decreases s, 1
  {
    hide GenExpr, U32, ExprSize;
    if s.Block? {
      GenStmtsLength(s.body, base, a, b, c, d);
    } else if s.If? {
      GenStmtLength(s.thn, base + ExprSize(s.cond) + 5, a, b, c, d);
    } else if s.IfElse? {
      GenStmtLength(s.thn, base + ExprSize(s.cond) + 5, a, b, c, d);
      GenStmtLength(s.els, base + ExprSize(s.cond) + 5 + StmtSize(s.thn) + 5, a, b, c, d);
    }
  }

  lemma {:induction false} GenStmtsLength(ss: Stmts, base: int, a: u32, b: u32, c: u32, d: u32)
    ensures |GenStmts(ss, base, a, b)| == |GenStmts(ss, base, c, d)|
    decreases ss, 0
  {
    hide GenStmt, StmtSize;
    if ss.Cons? {
      GenStmtLength(ss.head, base, a, b, c, d);
      GenStmtsLength(ss.tail, base + StmtSize(ss.head), a, b, c, d);
    }
  }
}
