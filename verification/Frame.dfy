/** Stack-frame layout of the C compiler: every local symbol gets an offset
    below the frame pointer; blocks that are never active together share. */
module Frame {

  const NUM_PARAM_REGS := 8
  const STACK_ALIGNMENT := 16

  datatype Specifier = Void | Char | Int | Long

  datatype Kind = Scalar | Array(length: nat)

  datatype Type = Type(specifier: Specifier, indirection: nat, kind: Kind)

  function Unit(t: Type): nat {
    if t.indirection > 0 then 8
    else match t.specifier
      case Void => 0
      case Char => 1
      case Int => 4
      case Long => 8
  }

  function Size(t: Type): nat {
    (match t.kind case Array(n) => n case Scalar => 1) * Unit(t)
  }

  function Alignment(t: Type): nat {
    Unit(t)
  }

  /** Remainder as C computes it: it has the sign of `m`. */
  function Remainder(m: int, a: nat): int
    requires a > 0
  {
    if m >= 0 then m % a else -((-m) % a)
  }

  function AlignDown(offset: int, alignment: nat): int {
    if alignment == 0 then offset
    else
      var magnitude := -offset;
      var remainder := Remainder(magnitude, alignment);
      -(if remainder != 0 then magnitude + alignment - remainder else magnitude)
  }

  /** Below the frame pointer, rounding gives the nearest aligned offset below;
      above it, it does so only for offsets that are aligned already. */
  lemma AlignDownIs(offset: int, t: Type)
    ensures var a := Alignment(t);
      var r := AlignDown(offset, a);
      a > 0 ==>
        (r % a == 0 && r <= offset < r + a <==> offset <= 0 || offset % a == 0)
  {
  }

  datatype Stmt =
    | Block(decls: seq<nat>, body: Stmts)
    | While(body1: Stmt)
    | For(body1: Stmt)
    | If(then_: Stmt)
    | IfElse(then_: Stmt, else_: Stmt)
    | Simple                                  // statements that declare nothing

  datatype Stmts = Nil | Cons(head: Stmt, tail: Stmts)

  function Min(a: int, b: int): int {
    if a < b then a else b
  }

  datatype Placed = Placed(offsets: seq<int>, low: int)

  /** The next symbol below `off`, unless it has an offset already. */
  function PlaceOne(types: seq<Type>, id: nat, o: seq<int>, off: int): (p: Placed)
    requires id < |types| == |o|
    ensures |p.offsets| == |o|
  {
    if o[id] != 0 then Placed(o, off)
    else
      var r := AlignDown(off - Size(types[id]), Alignment(types[id]));
      Placed(o[id := r], r)
  }

  function PlaceAll(types: seq<Type>, ids: seq<nat>, o: seq<int>, off: int): (p: Placed)
    requires |types| == |o| && forall k :: 0 <= k < |ids| ==> ids[k] < |types|
    ensures |p.offsets| == |o|
    decreases |ids|
  {
    if ids == [] then Placed(o, off)
    else
      var p := PlaceOne(types, ids[0], o, off);
      PlaceAll(types, ids[1..], p.offsets, p.low)
  }

  predicate InRange(s: Stmt, n: nat) {
    match s
    case Block(ids, body) => (forall k :: 0 <= k < |ids| ==> ids[k] < n) && AllInRange(body, n)
    case While(b) => InRange(b, n)
    case For(b) => InRange(b, n)
    case If(a) => InRange(a, n)
    case IfElse(a, b) => InRange(a, n) && InRange(b, n)
    case Simple => true
  }

  predicate AllInRange(ss: Stmts, n: nat) {
    ss.Cons? ==> InRange(ss.head, n) && AllInRange(ss.tail, n)
  }

  /** Layout of statement `s` below `off`. */
  function Layout(types: seq<Type>, s: Stmt, o: seq<int>, off: int): (p: Placed)
    requires |types| == |o| && InRange(s, |types|)
    ensures |p.offsets| == |o|
  {
    match s
    case Block(ids, body) =>
      var p := PlaceAll(types, ids, o, off);
      LayoutAll(types, body, p.offsets, p.low, p.low)
    case While(b) => Layout(types, b, o, off)
    case For(b) => Layout(types, b, o, off)
    case If(a) => Layout(types, a, o, off)
    case IfElse(a, b) =>
      var p := Layout(types, a, o, off);
      var q := Layout(types, b, p.offsets, off);
      Placed(q.offsets, Min(p.low, q.low))
    case Simple => Placed(o, off)
  }

  /** Each statement starts again at `saved`; `low` is the least offset so far. */
  function LayoutAll(types: seq<Type>, ss: Stmts, o: seq<int>, saved: int, low: int): (p: Placed)
    requires |types| == |o| && AllInRange(ss, |types|)
    ensures |p.offsets| == |o|
  {
    match ss
    case Nil => Placed(o, low)
    case Cons(s, rest) =>
      var p := Layout(types, s, o, saved);
      LayoutAll(types, rest, p.offsets, saved, Min(low, p.low))
  }

  /** The frame of a function whose body is a block: its first `params` symbols
      are the parameters, placed before the rest. */
  function LayoutFunction(types: seq<Type>, ids: seq<nat>, body: Stmts, params: nat): Placed
    requires InRange(Block(ids, body), |types|) && params <= |ids| && params <= NUM_PARAM_REGS
  {
    var p := PlaceAll(types, ids[..params], seq(|types|, _ => 0), 0);
    Layout(types, Block(ids, body), p.offsets, p.low)
  }

  function AlignTo(value: int, alignment: nat): int
    requires alignment > 0
  {
    var r := Remainder(value, alignment);
    if r == 0 then value else value + (alignment - r)
  }

  function FrameSize(low: int): int {
    AlignTo(-low, STACK_ALIGNMENT)
  }

  // ----- who must not overlap -----

  function Ids(ids: seq<nat>): set<nat> {
    set i | i in ids
  }

  /** The symbols declared anywhere in a statement. */
  function Declared(s: Stmt): set<nat> {
    match s
    case Block(ids, body) => Ids(ids) + AllDeclared(body)
    case While(b) => Declared(b)
    case For(b) => Declared(b)
    case If(a) => Declared(a)
    case IfElse(a, b) => Declared(a) + Declared(b)
    case Simple => {}
  }

  function AllDeclared(ss: Stmts): set<nat> {
    if ss.Nil? then {} else Declared(ss.head) + AllDeclared(ss.tail)
  }

  /** `a` and `b` are declared in the same block, or one in a block that
      contains the block of the other: both can be live at once. */
  predicate Together(s: Stmt, a: nat, b: nat) {
    match s
    case Block(ids, body) =>
      (a in ids && (b in ids || b in AllDeclared(body))) || (b in ids && a in AllDeclared(body)) ||
      AnyTogether(body, a, b)
    case While(t) => Together(t, a, b)
    case For(t) => Together(t, a, b)
    case If(t) => Together(t, a, b)
    case IfElse(t, e) => Together(t, a, b) || Together(e, a, b)
    case Simple => false
  }

  predicate AnyTogether(ss: Stmts, a: nat, b: nat) {
    ss.Cons? && (Together(ss.head, a, b) || AnyTogether(ss.tail, a, b))
  }

  /** No symbol is declared twice. */
  predicate Once(s: Stmt) {
    match s
    case Block(ids, body) =>
      (forall j, k :: 0 <= j < k < |ids| ==> ids[j] != ids[k]) && (forall i :: i in ids ==> i !in AllDeclared(body)) &&
      AllOnce(body)
    case While(b) => Once(b)
    case For(b) => Once(b)
    case If(a) => Once(a)
    case IfElse(a, b) => Once(a) && Once(b) && Declared(a) !! Declared(b)
    case Simple => true
  }

  predicate AllOnce(ss: Stmts) {
    ss.Cons? ==> Once(ss.head) && AllOnce(ss.tail) && Declared(ss.head) !! AllDeclared(ss.tail)
  }

  predicate Apart(types: seq<Type>, o: seq<int>, a: nat, b: nat)
    requires a < |types| == |o| && b < |types|
  {
    o[a] + Size(types[a]) <= o[b] || o[b] + Size(types[b]) <= o[a]
  }

  /** Symbol `i` lies in [low, high), aligned. */
  predicate Within(types: seq<Type>, o: seq<int>, i: nat, low: int, high: int)
    requires i < |types| == |o|
  {
    low <= o[i] && o[i] + Size(types[i]) <= high && Alignment(types[i]) > 0 && o[i] % Alignment(types[i]) == 0
  }

  ghost predicate Positive(types: seq<Type>) {
    forall i :: 0 <= i < |types| ==> Size(types[i]) > 0
  }

  ghost predicate SameOutside(o: seq<int>, p: seq<int>, touched: set<nat>) {
    |o| == |p| && forall i: nat :: i < |o| && i !in touched ==> p[i] == o[i]
  }

  /** Offsets changed only for `ids`, all of them now in [low, high). */
  ghost predicate PlacedIn(types: seq<Type>, o: seq<int>, p: Placed, ids: set<nat>, high: int) {
    |types| == |o| == |p.offsets| && p.low <= high && SameOutside(o, p.offsets, ids) &&
    forall i :: i in ids ==> i < |types| && Within(types, p.offsets, i, p.low, high)
  }

  ghost predicate Unplaced(o: seq<int>, ids: set<nat>) {
    forall i :: i in ids ==> i < |o| && o[i] == 0
  }

  lemma PlaceOneIs(types: seq<Type>, id: nat, o: seq<int>, off: int)
    requires id < |types| == |o| && o[id] == 0 && off <= 0 && Size(types[id]) > 0
    ensures var p := PlaceOne(types, id, o, off);
      p.low == p.offsets[id] && p.low < off && PlacedIn(types, o, p, {id}, off)
  {
    AlignDownIs(off - Size(types[id]), types[id]);
    SizeOne(types[id]);
  }

  lemma SizeOne(t: Type)
    requires Size(t) > 0
    ensures Alignment(t) > 0
  {
  }

  /** The symbols of one block lie one below the other. */
  lemma {:induction false} PlaceAllIs(types: seq<Type>, ids: seq<nat>, o: seq<int>, off: int)
    requires |types| == |o| && (forall k :: 0 <= k < |ids| ==> ids[k] < |types|) && Positive(types) && off <= 0
    requires (forall j, k :: 0 <= j < k < |ids| ==> ids[j] != ids[k]) && Unplaced(o, Ids(ids))
    ensures var p := PlaceAll(types, ids, o, off);
      PlacedIn(types, o, p, Ids(ids), off) &&
      forall a, b :: a in ids && b in ids && a != b ==> Apart(types, p.offsets, a, b)
    decreases |ids|
  {
    hide Within, PlaceOne, Size, Alignment;
    if ids != [] {
      PlaceOneIs(types, ids[0], o, off);
      var p := PlaceOne(types, ids[0], o, off);
      assert ids == [ids[0]] + ids[1..];
      PlaceAllIs(types, ids[1..], p.offsets, p.low);
      var q := PlaceAll(types, ids[1..], p.offsets, p.low);
      assert q.offsets[ids[0]] == p.offsets[ids[0]];
      forall a | a in ids[1..] ensures Apart(types, q.offsets, a, ids[0]) && Within(types, q.offsets, a, q.low, off) {
        BelowIs(types, q.offsets, a, ids[0], q.low, p.low, off);
      }
      Widen(types, p.offsets, q.offsets, ids[0], p.low, q.low, off, off);
    }
  }

  lemma BelowIs(types: seq<Type>, o: seq<int>, a: nat, b: nat, low: int, mid: int, high: int)
    requires a < |types| == |o| && b < |types| && Within(types, o, a, low, mid) && mid <= o[b] && mid <= high
    ensures Apart(types, o, a, b) && Within(types, o, a, low, high)
  {
  }

  /** A symbol kept in place is within any wider bounds. */
  lemma Widen(types: seq<Type>, o: seq<int>, p: seq<int>, i: nat, low: int, low1: int, high: int, high1: int)
    requires i < |types| == |o| == |p| && p[i] == o[i] && Within(types, o, i, low, high) && low1 <= low && high <= high1
    ensures Within(types, p, i, low1, high1)
  {
  }

  /** Two symbols kept in place stay apart. */
  lemma KeptApart(types: seq<Type>, o: seq<int>, p: seq<int>, a: nat, b: nat)
    requires a < |types| == |o| == |p| && b < |types| && p[a] == o[a] && p[b] == o[b]
    ensures Apart(types, p, a, b) <==> Apart(types, o, a, b)
  {
  }

  ghost predicate TogetherApart(types: seq<Type>, s: Stmt, o: seq<int>)
    requires |o| == |types|
  {
    forall a: nat, b: nat :: a < |types| && b < |types| && a != b && Together(s, a, b) ==> Apart(types, o, a, b)
  }

  ghost predicate AllTogetherApart(types: seq<Type>, ss: Stmts, o: seq<int>)
    requires |o| == |types|
  {
    forall a: nat, b: nat :: a < |types| && b < |types| && a != b && AnyTogether(ss, a, b) ==> Apart(types, o, a, b)
  }

  /** Symbols that can be live together are declared in the statement. */
  lemma {:induction false} TogetherDeclared(s: Stmt, a: nat, b: nat)
    ensures Together(s, a, b) ==> a in Declared(s) && b in Declared(s)
  {
    match s
    case Block(ids, body) => AnyTogetherDeclared(body, a, b);
    case While(t) => TogetherDeclared(t, a, b);
    case For(t) => TogetherDeclared(t, a, b);
    case If(t) => TogetherDeclared(t, a, b);
    case IfElse(t, e) => TogetherDeclared(t, a, b); TogetherDeclared(e, a, b);
    case Simple =>
  }

  lemma {:induction false} AnyTogetherDeclared(ss: Stmts, a: nat, b: nat)
    ensures AnyTogether(ss, a, b) ==> a in AllDeclared(ss) && b in AllDeclared(ss)
  {
    if ss.Cons? {
      TogetherDeclared(ss.head, a, b);
      AnyTogetherDeclared(ss.tail, a, b);
    }
  }

  /** Pairs apart stay apart when the symbols of `s` are left in place. */
  lemma TogetherKept(types: seq<Type>, s: Stmt, o: seq<int>, p: seq<int>)
    requires |o| == |types| == |p| && TogetherApart(types, s, o)
    requires forall i :: i in Declared(s) && i < |o| ==> p[i] == o[i]
    ensures TogetherApart(types, s, p)
  {
    hide Apart, Together, Declared;
    forall a: nat, b: nat | a < |types| && b < |types| && a != b && Together(s, a, b) ensures Apart(types, p, a, b) {
      TogetherDeclared(s, a, b);
      KeptApart(types, o, p, a, b);
    }
  }

  lemma {:induction false} InRangeDeclared(s: Stmt, n: nat)
    requires InRange(s, n)
    ensures forall i :: i in Declared(s) ==> i < n
  {
    match s
    case Block(ids, body) => AllInRangeDeclared(body, n);
    case While(t) => InRangeDeclared(t, n);
    case For(t) => InRangeDeclared(t, n);
    case If(t) => InRangeDeclared(t, n);
    case IfElse(t, e) => InRangeDeclared(t, n); InRangeDeclared(e, n);
    case Simple =>
  }

  lemma {:induction false} AllInRangeDeclared(ss: Stmts, n: nat)
    requires AllInRange(ss, n)
    ensures forall i :: i in AllDeclared(ss) ==> i < n
  {
    if ss.Cons? {
      InRangeDeclared(ss.head, n);
      AllInRangeDeclared(ss.tail, n);
    }
  }

  /** Laying out a statement places exactly its symbols, aligned, between the
      offset it started from and the one it returns; and symbols that can be
      live together never overlap. */
  lemma {:induction false} LayoutIs(types: seq<Type>, s: Stmt, o: seq<int>, off: int)
    requires |types| == |o| && InRange(s, |types|) && Positive(types) && off <= 0
    requires Once(s) && Unplaced(o, Declared(s))
    ensures var p := Layout(types, s, o, off);
      PlacedIn(types, o, p, Declared(s), off) && TogetherApart(types, s, p.offsets)
    decreases s, 1
  {
    hide Within, Apart, PlaceAll, Size, Alignment;
    match s
    case Block(ids, body) => BlockIs(types, ids, body, o, off);
    case While(t) => LayoutIs(types, t, o, off);
    case For(t) => LayoutIs(types, t, o, off);
    case If(t) => LayoutIs(types, t, o, off);
    case IfElse(t, e) =>
      LayoutIs(types, t, o, off);
      var p := Layout(types, t, o, off);
      LayoutIs(types, e, p.offsets, off);
      var q := Layout(types, e, p.offsets, off);
      TogetherKept(types, t, p.offsets, q.offsets);
      BothWithin(types, o, p, q, Declared(t), Declared(e), off, off);
    case Simple =>
  }

  /** Two placements one after the other, from different starting offsets. */
  lemma BothWithin(types: seq<Type>, o: seq<int>, p: Placed, q: Placed, a: set<nat>, b: set<nat>, high: int, high1: int)
    requires PlacedIn(types, o, p, a, high) && PlacedIn(types, p.offsets, q, b, high1) && a !! b && high1 <= high
    ensures PlacedIn(types, o, Placed(q.offsets, Min(p.low, q.low)), a + b, high)
  {
    hide Within;
    forall i | i in a ensures Within(types, q.offsets, i, Min(p.low, q.low), high) {
      Widen(types, p.offsets, q.offsets, i, p.low, Min(p.low, q.low), high, high);
    }
    forall i | i in b ensures Within(types, q.offsets, i, Min(p.low, q.low), high) {
      Widen(types, q.offsets, q.offsets, i, q.low, Min(p.low, q.low), high1, high);
    }
  }

  lemma {:induction false} LayoutAllIs(types: seq<Type>, ss: Stmts, o: seq<int>, saved: int, low: int)
    requires |types| == |o| && AllInRange(ss, |types|) && Positive(types) && low <= saved <= 0
    requires AllOnce(ss) && Unplaced(o, AllDeclared(ss))
    ensures var p := LayoutAll(types, ss, o, saved, low);
      p.low <= low && PlacedIn(types, o, p, AllDeclared(ss), saved) && AllTogetherApart(types, ss, p.offsets)
    decreases ss, 1
  {
    hide Within, Apart, PlaceAll, Size, Alignment;
    if ss.Cons? {
      LayoutIs(types, ss.head, o, saved);
      var p := Layout(types, ss.head, o, saved);
      LayoutAllIs(types, ss.tail, p.offsets, saved, Min(low, p.low));
      var q := LayoutAll(types, ss.tail, p.offsets, saved, Min(low, p.low));
      TogetherKept(types, ss.head, p.offsets, q.offsets);
      BothWithin(types, o, p, q, Declared(ss.head), AllDeclared(ss.tail), saved, saved);
      assert Min(p.low, q.low) == q.low;
    }
  }

  /** A block's own symbols lie above all those nested in it. */
  lemma {:induction false} BlockIs(types: seq<Type>, ids: seq<nat>, body: Stmts, o: seq<int>, off: int)
    requires |types| == |o| && InRange(Block(ids, body), |types|) && Positive(types) && off <= 0
    requires Once(Block(ids, body)) && Unplaced(o, Declared(Block(ids, body)))
    ensures var p := Layout(types, Block(ids, body), o, off);
      PlacedIn(types, o, p, Declared(Block(ids, body)), off) && TogetherApart(types, Block(ids, body), p.offsets)
    decreases Block(ids, body), 0
  {
    hide Within, Apart, PlaceAll, Size, Alignment;
    PlaceAllIs(types, ids, o, off);
    var p := PlaceAll(types, ids, o, off);
    LayoutAllIs(types, body, p.offsets, p.low, p.low);
    var q := LayoutAll(types, body, p.offsets, p.low, p.low);
    assert q == Layout(types, Block(ids, body), o, off);
    var mine := Ids(ids);
    BothWithin(types, o, p, q, mine, AllDeclared(body), off, p.low);
    assert Min(p.low, q.low) == q.low;
    AllInRangeDeclared(body, |types|);
    forall a, b | a in ids && b in AllDeclared(body)
      ensures Apart(types, q.offsets, a, b) && Apart(types, q.offsets, b, a)
    {
      NestedApart(types, q.offsets, p.offsets, a, b, p.low, q.low, off);
    }
    forall a: nat, b: nat | a < |types| && b < |types| && a != b && Together(Block(ids, body), a, b)
      ensures Apart(types, q.offsets, a, b)
    {
      if a in ids && b in ids {
        KeptApart(types, p.offsets, q.offsets, a, b);
      }
    }
  }

  lemma NestedApart(types: seq<Type>, o: seq<int>, p: seq<int>, a: nat, b: nat, mid: int, low: int, high: int)
    requires a < |types| == |o| == |p| && b < |types| && o[a] == p[a]
    requires Within(types, p, a, mid, high) && Within(types, o, b, low, mid)
    ensures Apart(types, o, a, b) && Apart(types, o, b, a)
  {
  }

  // ----- functions -----

  /** Symbols that have offsets already are passed over. */
  lemma {:induction false} PassOver(types: seq<Type>, ids: seq<nat>, o: seq<int>, off: int)
    requires |types| == |o| && forall k :: 0 <= k < |ids| ==> ids[k] < |types| && o[ids[k]] != 0
    ensures PlaceAll(types, ids, o, off) == Placed(o, off)
    decreases |ids|
  {
    if ids != [] {
      assert o[ids[0]] != 0;
      PassOver(types, ids[1..], o, off);
    }
  }

  lemma {:induction false} PlaceAppend(types: seq<Type>, a: seq<nat>, b: seq<nat>, o: seq<int>, off: int)
    requires |types| == |o| && (forall k :: 0 <= k < |a| ==> a[k] < |types|) && forall k :: 0 <= k < |b| ==> b[k] < |types|
    requires forall k :: 0 <= k < |a + b| ==> (a + b)[k] < |types|
    ensures var p := PlaceAll(types, a, o, off);
      PlaceAll(types, a + b, o, off) == PlaceAll(types, b, p.offsets, p.low)
    decreases |a|
  {
    hide PlaceOne;
    if a == [] {
      assert a + b == b;
    } else {
      var p := PlaceOne(types, a[0], o, off);
      assert (a + b)[0] == a[0] && (a + b)[1..] == a[1..] + b;
      PlaceAppend(types, a[1..], b, p.offsets, p.low);
    }
  }

  /** Parameters first and the body after is the layout of the body alone: the
      parameters, placed with nonzero offsets, are passed over the second time. */
  lemma {:induction false} ParamsFirst(types: seq<Type>, ids: seq<nat>, body: Stmts, params: nat)
    requires InRange(Block(ids, body), |types|) && Positive(types) && Once(Block(ids, body))
    requires params <= |ids| && params <= NUM_PARAM_REGS
    ensures LayoutFunction(types, ids, body, params) == Layout(types, Block(ids, body), seq(|types|, _ => 0), 0)
  {
    hide Within, Apart, PlaceOne, Size, Alignment, LayoutAll, Positive;
    var o := seq(|types|, _ => 0);
    var a, b := ids[..params], ids[params..];
    assert ids == a + b;
    PlaceAllIs(types, a, o, 0);
    var p := PlaceAll(types, a, o, 0);
    PlaceAppend(types, a, b, o, 0);
    PlaceAppend(types, a, b, p.offsets, p.low);
    forall k | 0 <= k < |a| ensures p.offsets[a[k]] != 0 {
      assert a[k] in Ids(a);
      BelowZero(types, p.offsets, a[k], p.low);
    }
    PassOver(types, a, p.offsets, p.low);
  }

  lemma BelowZero(types: seq<Type>, o: seq<int>, i: nat, low: int)
    requires i < |types| == |o| && Positive(types) && Within(types, o, i, low, 0)
    ensures o[i] < 0
  {
  }

  lemma FrameSizeIs(low: int)
    requires low <= 0
    ensures var f := FrameSize(low); f % 16 == 0 && -low <= f < -low + 16
  {
    var v := -low;
    assert v == v / 16 * 16 + v % 16;
    assert FrameSize(low) == if v % 16 == 0 then v else (v / 16 + 1) * 16;
  }

  /** The frame theorem: every local symbol and every parameter lies, aligned,
      in the frame below the frame pointer, and symbols that can be live
      together never overlap. */
  lemma {:induction false} FrameOk(types: seq<Type>, ids: seq<nat>, body: Stmts, params: nat)
    requires InRange(Block(ids, body), |types|) && Positive(types) && Once(Block(ids, body))
    requires params <= |ids| && params <= NUM_PARAM_REGS
    ensures var p := LayoutFunction(types, ids, body, params);
      |p.offsets| == |types| &&
      (forall i: nat :: i in Declared(Block(ids, body)) ==> i < |types| && Within(types, p.offsets, i, -FrameSize(p.low), 0)) &&
      (forall a: nat, b: nat :: (a < |types| && b < |types| && a != b && Together(Block(ids, body), a, b)) ==>
        Apart(types, p.offsets, a, b))
  {
    hide Within, Apart, PlaceAll, LayoutAll, Size, Alignment, Positive, FrameSize;
    var o := seq(|types|, _ => 0);
    InRangeDeclared(Block(ids, body), |types|);
    LayoutIs(types, Block(ids, body), o, 0);
    ParamsFirst(types, ids, body, params);
    var p := LayoutFunction(types, ids, body, params);
    FrameSizeIs(p.low);
    forall i: nat | i in Declared(Block(ids, body)) ensures i < |types| && Within(types, p.offsets, i, -FrameSize(p.low), 0) {
      Widen(types, p.offsets, p.offsets, i, p.low, -FrameSize(p.low), 0, 0);
    }
  }

  lemma PlaceNone(types: seq<Type>, o: seq<int>)
    requires |types| == |o|
    ensures PlaceAll(types, [], o, 0) == Placed(o, 0)
  {
  }

  lemma PlaceJust(types: seq<Type>, id: nat, o: seq<int>, off: int)
    requires id < |types| == |o|
    ensures PlaceAll(types, [id], o, off) == PlaceOne(types, id, o, off)
  {
    var p := PlaceOne(types, id, o, off);
    assert [id][1..] == [];
    assert PlaceAll(types, [], p.offsets, p.low) == p;
  }

  // ----- the code -----

  /** The symbols of one function, with their offsets. */
  class Symbols {
    const types: seq<Type>
    const offsets: array<int>

    ghost predicate Valid() {
      offsets.Length == |types|
    }

    constructor (types: seq<Type>)
      ensures Valid() && this.types == types && fresh(offsets) && offsets[..] == seq(|types|, _ => 0)
    {
      this.types := types;
      offsets := new int[|types|](_ => 0);
      new;
      assert offsets[..] == seq(|types|, _ => 0);
    }

    method PlaceSymbols(ids: seq<nat>, offset: int) returns (low: int)
      requires Valid() && forall k :: 0 <= k < |ids| ==> ids[k] < |types|
      modifies offsets
      ensures Placed(offsets[..], low) == PlaceAll(types, ids, old(offsets[..]), offset)
    {
      low := offset;
      ghost var was := offsets[..];
      hide AlignDown, Size, Alignment;
      for i := 0 to |ids|
        invariant PlaceAll(types, ids[i..], offsets[..], low) == PlaceAll(types, ids, was, offset)
      {
        assert ids[i..][0] == ids[i] && ids[i..][1..] == ids[i + 1..];
        if offsets[ids[i]] == 0 {
          low := low - Size(types[ids[i]]);
          low := AlignDown(low, Alignment(types[ids[i]]));
          offsets[ids[i]] := low;
        }
      }
    }

    method Allocate(s: Stmt, offset: int) returns (low: int)
      requires Valid() && InRange(s, |types|)
      modifies offsets
      ensures Placed(offsets[..], low) == Layout(types, s, old(offsets[..]), offset)
      decreases s
    {
      hide PlaceAll, LayoutAll;
      match s
      case Block(ids, body) =>
        low := PlaceSymbols(ids, offset);
        low := AllocateAll(body, low);
      case While(t) => low := Allocate(t, offset);
      case For(t) => low := Allocate(t, offset);
      case If(t) => low := Allocate(t, offset);
      case IfElse(t, e) =>
        low := Allocate(t, offset);
        var temp := Allocate(e, offset);
        low := Min(low, temp);
      case Simple => low := offset;
    }

    /** The statements of a block, each from the same offset. */
    method AllocateAll(ss: Stmts, saved: int) returns (low: int)
      requires Valid() && AllInRange(ss, |types|)
      modifies offsets
      ensures Placed(offsets[..], low) == LayoutAll(types, ss, old(offsets[..]), saved, saved)
      decreases ss
    {
      low := saved;
      var rest := ss;
      ghost var was := offsets[..];
      hide Layout;
      while rest.Cons?
        invariant AllInRange(rest, |types|) && (rest == ss || rest < ss)
        invariant LayoutAll(types, rest, offsets[..], saved, low) == LayoutAll(types, ss, was, saved, saved)
        decreases rest
      {
        var temp := Allocate(rest.head, saved);
        low := Min(low, temp);
        rest := rest.tail;
      }
    }

    /** The frame of a function whose first `params` symbols arrive in
        registers; its size in bytes. */
    method AllocateFunction(ids: seq<nat>, body: Stmts, params: nat) returns (frame: int)
      requires Valid() && InRange(Block(ids, body), |types|) && params <= |ids| && params <= NUM_PARAM_REGS
      requires offsets[..] == seq(|types|, _ => 0) && forall j, k :: 0 <= j < k < |ids| ==> ids[j] != ids[k]
      modifies offsets
      ensures var p := LayoutFunction(types, ids, body, params);
        offsets[..] == p.offsets && frame == FrameSize(p.low)
    {
      hide PlaceAll, Layout, Size, Alignment, AlignDown;
      var low := 0;
      ghost var zeros := offsets[..];
      PlaceNone(types, zeros);
      assert ids[..0] == [];
      for i := 0 to params
        invariant Placed(offsets[..], low) == PlaceAll(types, ids[..i], zeros, 0)
        invariant forall k :: i <= k < |ids| ==> offsets[ids[k]] == 0
      {
        assert ids[..i + 1] == ids[..i] + [ids[i]];
        PlaceAppend(types, ids[..i], [ids[i]], zeros, 0);
        PlaceJust(types, ids[i], offsets[..], low);
        low := low - Size(types[ids[i]]);
        low := AlignDown(low, Alignment(types[ids[i]]));
        offsets[ids[i]] := low;
      }
      low := Allocate(Block(ids, body), low);
      frame := AlignTo(-low, STACK_ALIGNMENT);
    }
  }
}
