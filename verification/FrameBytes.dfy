/** The frame in bytes: what elements of arrays occupy, and that no two of them,
    in symbols that can be live together, share a byte. */
module FrameBytes {
  import opened Frame

  /** The bytes of one element, and its alignment. */
  function Width(t: Type): nat {
    if t.indirection > 0 || t.specifier == Long then 8
    else if t.specifier == Int then 4
    else if t.specifier == Char then 1
    else 0
  }

  /** How many elements there are; a scalar is one. */
  function Count(t: Type): nat {
    if t.kind.Array? then t.kind.length else 1
  }

  lemma TypeIs(t: Type)
    ensures Size(t) == Count(t) * Width(t) && Alignment(t) == Width(t)
  {
  }

  /** Byte `d` of element `k`. */
  function ByteOf(t: Type, offset: int, k: nat, d: nat): int {
    offset + k * Width(t) + d
  }

  predicate InElement(t: Type, k: nat, d: nat) {
    k < Count(t) && d < Width(t)
  }

  lemma ElementInside(t: Type, k: nat, d: nat)
    requires InElement(t, k, d)
    ensures 0 <= k * Width(t) && k * Width(t) + d < Size(t)
  {
    TypeIs(t);
    var w := Width(t);
    assert (k + 1) * w <= Count(t) * w by { Scaled(k + 1, Count(t), w); }
    assert (k + 1) * w == k * w + w;
    assert k * w >= 0;
  }

  lemma Scaled(a: nat, b: nat, w: nat)
    requires a <= b
    ensures a * w <= b * w
  {
  }

  /** Every byte of every element is in the frame below the frame pointer, each
      element is aligned to its own width, and no byte belongs to two symbols
      that can be live together. */
  lemma {:induction false} BytesApart(types: seq<Type>, ids: seq<nat>, body: Stmts, params: nat, a: nat, k: nat, d: nat)
    requires InRange(Block(ids, body), |types|) && Positive(types) && Once(Block(ids, body))
    requires params <= |ids| && params <= NUM_PARAM_REGS
    requires a in Declared(Block(ids, body)) && a < |types| && InElement(types[a], k, d)
    ensures var p := LayoutFunction(types, ids, body, params);
      |p.offsets| == |types| &&
      -FrameSize(p.low) <= ByteOf(types[a], p.offsets[a], k, d) < 0 &&
      ByteOf(types[a], p.offsets[a], k, 0) % Width(types[a]) == 0 &&
      forall b: nat, l: nat, e: nat ::
        b < |types| && b != a && Together(Block(ids, body), a, b) && InElement(types[b], l, e) ==>
        ByteOf(types[a], p.offsets[a], k, d) != ByteOf(types[b], p.offsets[b], l, e)
  {
    hide LayoutFunction, Size, Alignment, Once, Together, Declared, Positive, FrameSize, InRange, Width;
    FrameOk(types, ids, body, params);
    var p := LayoutFunction(types, ids, body, params);
    ElementInside(types[a], k, d);
    TypeIs(types[a]);
    Multiples(p.offsets[a], k, types[a]);
    forall b: nat, l: nat, e: nat |
      b < |types| && b != a && Together(Block(ids, body), a, b) && InElement(types[b], l, e)
      ensures ByteOf(types[a], p.offsets[a], k, d) != ByteOf(types[b], p.offsets[b], l, e)
    {
      ElementInside(types[b], l, e);
      assert Apart(types, p.offsets, a, b);
    }
  }

  lemma Multiples(o: int, k: nat, t: Type)
    requires Width(t) > 0 && o % Width(t) == 0
    ensures (o + k * Width(t)) % Width(t) == 0
  {
    assert Width(t) == 1 || Width(t) == 4 || Width(t) == 8;
  }

  /** No room is wasted: a symbol goes to the highest place below `off` at which
      it is aligned. */
  lemma NoWaste(types: seq<Type>, id: nat, o: seq<int>, off: int)
    requires id < |types| == |o| && o[id] == 0 && off <= 0 && Size(types[id]) > 0
    ensures var p := PlaceOne(types, id, o, off);
      var w, n := Width(types[id]), Count(types[id]) * Width(types[id]);
      p.low == p.offsets[id] && p.low % w == 0 && p.low + n <= off < p.low + n + w
  {
    TypeIs(types[id]);
    AlignDownIs(off - Size(types[id]), types[id]);
    SizeOne(types[id]);
  }

  // ----- which symbols can be live together -----

  /** Statement `t` is `s` or stands somewhere in it. */
  predicate Occurs(t: Stmt, s: Stmt) {
    t == s ||
    match s
    case Block(_, body) => OccursIn(t, body)
    case While(b) => Occurs(t, b)
    case For(b) => Occurs(t, b)
    case If(b) => Occurs(t, b)
    case IfElse(b, c) => Occurs(t, b) || Occurs(t, c)
    case Simple => false
  }

  predicate OccursIn(t: Stmt, ss: Stmts) {
    ss.Cons? && (Occurs(t, ss.head) || OccursIn(t, ss.tail))
  }

  /** `a` is declared in block `t` itself, and `b` there or further in. */
  predicate Encloses(t: Stmt, a: nat, b: nat) {
    t.Block? && a in t.decls && (b in t.decls || b in AllDeclared(t.body))
  }

  /** Two symbols can be live together if and only if some block declares one of
      them and the other is declared in this block or inside it. */
  lemma {:induction false} TogetherIs(s: Stmt, a: nat, b: nat)
    ensures Together(s, a, b) <==> exists t :: Occurs(t, s) && (Encloses(t, a, b) || Encloses(t, b, a))
    decreases s
  {
    if t :| Occurs(t, s) && (Encloses(t, a, b) || Encloses(t, b, a)) {
      TogetherIn(t, s, a, b);
    }
    if Together(s, a, b) {
      var t := BlockOf(s, a, b);
    }
  }

  lemma {:induction false} TogetherIn(t: Stmt, s: Stmt, a: nat, b: nat)
    requires Occurs(t, s) && (Encloses(t, a, b) || Encloses(t, b, a))
    ensures Together(s, a, b)
    decreases s
  {
    if t != s {
      match s
      case Block(_, body) => AnyTogetherIn(t, body, a, b);
      case While(c) => TogetherIn(t, c, a, b);
      case For(c) => TogetherIn(t, c, a, b);
      case If(c) => TogetherIn(t, c, a, b);
      case IfElse(c, e) => if Occurs(t, c) { TogetherIn(t, c, a, b); } else { TogetherIn(t, e, a, b); }
    }
  }

  lemma {:induction false} AnyTogetherIn(t: Stmt, ss: Stmts, a: nat, b: nat)
    requires OccursIn(t, ss) && (Encloses(t, a, b) || Encloses(t, b, a))
    ensures AnyTogether(ss, a, b)
    decreases ss
  {
    if Occurs(t, ss.head) {
      TogetherIn(t, ss.head, a, b);
    } else {
      AnyTogetherIn(t, ss.tail, a, b);
    }
  }

  lemma {:induction false} BlockOf(s: Stmt, a: nat, b: nat) returns (t: Stmt)
    requires Together(s, a, b)
    ensures Occurs(t, s) && (Encloses(t, a, b) || Encloses(t, b, a))
    decreases s
  {
    match s
    case Block(ids, body) =>
      if AnyTogether(body, a, b) {
        t := BlockIn(body, a, b);
      } else {
        t := s;
      }
    case While(c) => t := BlockOf(c, a, b);
    case For(c) => t := BlockOf(c, a, b);
    case If(c) => t := BlockOf(c, a, b);
    case IfElse(c, e) => if Together(c, a, b) { t := BlockOf(c, a, b); } else { t := BlockOf(e, a, b); }
  }

  lemma {:induction false} BlockIn(ss: Stmts, a: nat, b: nat) returns (t: Stmt)
    requires AnyTogether(ss, a, b)
    ensures OccursIn(t, ss) && (Encloses(t, a, b) || Encloses(t, b, a))
    decreases ss
  {
    if Together(ss.head, a, b) {
      t := BlockOf(ss.head, a, b);
    } else {
      t := BlockIn(ss.tail, a, b);
    }
  }
}
