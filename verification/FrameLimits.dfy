/** What frames share, and when symbols of size 0 get a place. */
module FrameLimits {
  import opened Frame

  // ----- sharing -----

  ghost predicate AgreeOn(o: seq<int>, p: seq<int>, ids: set<nat>) {
    |o| == |p| && forall i: nat :: i in ids && i < |o| ==> p[i] == o[i]
  }

  lemma {:induction false} PlaceAgrees(types: seq<Type>, ids: seq<nat>, o: seq<int>, p: seq<int>, off: int, all: set<nat>)
    requires |types| == |o| == |p| && AgreeOn(o, p, all) && Ids(ids) <= all
    requires forall k :: 0 <= k < |ids| ==> ids[k] < |types|
    ensures var a, b := PlaceAll(types, ids, o, off), PlaceAll(types, ids, p, off);
      a.low == b.low && AgreeOn(a.offsets, b.offsets, all)
    decreases |ids|
  {
    hide AlignDown, Size, Alignment;
    if ids != [] {
      assert ids[0] in Ids(ids) && Ids(ids[1..]) <= Ids(ids);
      var a, b := PlaceOne(types, ids[0], o, off), PlaceOne(types, ids[0], p, off);
      PlaceAgrees(types, ids[1..], a.offsets, b.offsets, a.low, all);
    }
  }

  /** A layout depends only on the offsets of the symbols it declares. */
  lemma {:induction false} LayoutAgrees(types: seq<Type>, s: Stmt, o: seq<int>, p: seq<int>, off: int, all: set<nat>)
    requires |types| == |o| == |p| && InRange(s, |types|) && AgreeOn(o, p, all) && Declared(s) <= all
    ensures var a, b := Layout(types, s, o, off), Layout(types, s, p, off);
      a.low == b.low && AgreeOn(a.offsets, b.offsets, all)
    decreases s, 1
  {
    hide PlaceAll, LayoutAll, AgreeOn;
    match s
    case Block(ids, body) =>
      PlaceAgrees(types, ids, o, p, off, all);
      var a, b := PlaceAll(types, ids, o, off), PlaceAll(types, ids, p, off);
      LayoutAllAgrees(types, body, a.offsets, b.offsets, a.low, a.low, all);
    case While(t) => LayoutAgrees(types, t, o, p, off, all);
    case For(t) => LayoutAgrees(types, t, o, p, off, all);
    case If(t) => LayoutAgrees(types, t, o, p, off, all);
    case IfElse(t, e) =>
      LayoutAgrees(types, t, o, p, off, all);
      LayoutAgrees(types, e, Layout(types, t, o, off).offsets, Layout(types, t, p, off).offsets, off, all);
    case Simple =>
  }

  lemma {:induction false} LayoutAllAgrees(types: seq<Type>, ss: Stmts, o: seq<int>, p: seq<int>, saved: int, low: int, all: set<nat>)
    requires |types| == |o| && |p| == |o| && AllInRange(ss, |types|) && AgreeOn(o, p, all) && AllDeclared(ss) <= all
    ensures var a, b := LayoutAll(types, ss, o, saved, low), LayoutAll(types, ss, p, saved, low);
      a.low == b.low && AgreeOn(a.offsets, b.offsets, all)
    decreases ss, 1
  {
    hide Layout, AgreeOn;
    if ss.Cons? {
      LayoutAgrees(types, ss.head, o, p, saved, all);
      var a, b := Layout(types, ss.head, o, saved), Layout(types, ss.head, p, saved);
      LayoutAllAgrees(types, ss.tail, a.offsets, b.offsets, saved, Min(low, a.low), all);
    }
  }

  lemma {:induction false} PlaceOutside(types: seq<Type>, ids: seq<nat>, o: seq<int>, off: int)
    requires |types| == |o| && forall k :: 0 <= k < |ids| ==> ids[k] < |types|
    ensures SameOutside(o, PlaceAll(types, ids, o, off).offsets, Ids(ids))
    decreases |ids|
  {
    hide AlignDown, Size, Alignment;
    if ids != [] {
      assert ids[0] in Ids(ids) && Ids(ids[1..]) <= Ids(ids);
      var p := PlaceOne(types, ids[0], o, off);
      PlaceOutside(types, ids[1..], p.offsets, p.low);
    }
  }

  /** A layout changes no offset but those of the symbols it declares. */
  lemma {:induction false} LayoutOutside(types: seq<Type>, s: Stmt, o: seq<int>, off: int)
    requires |types| == |o| && InRange(s, |types|)
    ensures SameOutside(o, Layout(types, s, o, off).offsets, Declared(s))
    decreases s, 1
  {
    hide PlaceAll, LayoutAll;
    match s
    case Block(ids, body) =>
      PlaceOutside(types, ids, o, off);
      var p := PlaceAll(types, ids, o, off);
      LayoutAllOutside(types, body, p.offsets, p.low, p.low);
    case While(t) => LayoutOutside(types, t, o, off);
    case For(t) => LayoutOutside(types, t, o, off);
    case If(t) => LayoutOutside(types, t, o, off);
    case IfElse(t, e) =>
      LayoutOutside(types, t, o, off);
      LayoutOutside(types, e, Layout(types, t, o, off).offsets, off);
    case Simple =>
  }

  lemma {:induction false} LayoutAllOutside(types: seq<Type>, ss: Stmts, o: seq<int>, saved: int, low: int)
    requires |types| == |o| && AllInRange(ss, |types|)
    ensures SameOutside(o, LayoutAll(types, ss, o, saved, low).offsets, AllDeclared(ss))
    decreases ss, 1
  {
    hide Layout;
    if ss.Cons? {
      LayoutOutside(types, ss.head, o, saved);
      var p := Layout(types, ss.head, o, saved);
      LayoutAllOutside(types, ss.tail, p.offsets, saved, Min(low, p.low));
    }
  }

  /** The branches of a conditional share: the frame is as deep as the deeper of
      the two would be alone, not as their sum. */
  lemma {:induction false} BranchesShare(types: seq<Type>, a: Stmt, b: Stmt, o: seq<int>, off: int)
    requires |types| == |o| && InRange(IfElse(a, b), |types|) && Once(IfElse(a, b))
    ensures Layout(types, IfElse(a, b), o, off).low == Min(Layout(types, a, o, off).low, Layout(types, b, o, off).low)
  {
    var p := Layout(types, a, o, off);
    LayoutOutside(types, a, o, off);
    LayoutAgrees(types, b, o, p.offsets, off, Declared(b));
    assert Layout(types, IfElse(a, b), o, off).low == Min(p.low, Layout(types, b, p.offsets, off).low);
  }

  // ----- symbols of size 0 -----

  /** One of the first `n` symbols takes space. */
  predicate Takes(types: seq<Type>, ids: seq<nat>, n: nat)
    requires forall k :: 0 <= k < |ids| ==> ids[k] < |types|
  {
    exists j: nat :: j < n && j < |ids| && Size(types[ids[j]]) > 0
  }

  /** Symbol `k` takes space or comes after one that does, counting all of the
      first `params` as coming before it. */
  predicate After(types: seq<Type>, ids: seq<nat>, k: nat, params: nat)
    requires forall k :: 0 <= k < |ids| ==> ids[k] < |types|
  {
    Takes(types, ids, Max(k + 1, params))
  }

  function Max(a: nat, b: nat): nat {
    if a < b then b else a
  }

  /** Every symbol of the statement takes space itself or comes after one that
      does, in its own block's list or in that of an enclosing block; `below`
      says that such a one encloses the whole statement. */
  predicate AllBelow(types: seq<Type>, s: Stmt, below: bool)
    requires InRange(s, |types|)
  {
    match s
    case Block(ids, body) =>
      (below || forall k: nat :: k < |ids| ==> After(types, ids, k, 0)) &&
      ListBelow(types, body, below || Takes(types, ids, |ids|))
    case While(t) => AllBelow(types, t, below)
    case For(t) => AllBelow(types, t, below)
    case If(t) => AllBelow(types, t, below)
    case IfElse(t, e) => AllBelow(types, t, below) && AllBelow(types, e, below)
    case Simple => true
  }

  predicate ListBelow(types: seq<Type>, ss: Stmts, below: bool)
    requires AllInRange(ss, |types|)
  {
    ss.Cons? ==> AllBelow(types, ss.head, below) && ListBelow(types, ss.tail, below)
  }

  ghost predicate Negative(o: seq<int>, ids: set<nat>) {
    forall i: nat :: i in ids && i < |o| ==> o[i] < 0
  }

  /** One of the first `n` symbols takes space and has no offset yet. */
  ghost predicate Drops(types: seq<Type>, ids: seq<nat>, o: seq<int>, n: nat)
    requires |o| == |types| && forall k :: 0 <= k < |ids| ==> ids[k] < |types|
  {
    exists j: nat :: j < n && j < |ids| && o[ids[j]] == 0 && Size(types[ids[j]]) > 0
  }

  lemma AlignDownSign(x: int, a: nat)
    requires x <= 0
    ensures AlignDown(x, a) <= x && (x == 0 ==> AlignDown(x, a) == 0)
  {
  }

  lemma {:induction false} PlaceAllSinks(types: seq<Type>, ids: seq<nat>, o: seq<int>, off: int)
    requires |types| == |o| && (forall k :: 0 <= k < |ids| ==> ids[k] < |types|) && off <= 0
    requires (forall j, k :: 0 <= j < k < |ids| ==> ids[j] != ids[k]) && forall k :: 0 <= k < |ids| ==> o[ids[k]] <= 0
    ensures var p := PlaceAll(types, ids, o, off);
      p.low <= off && (p.low < 0 <==> off < 0 || Drops(types, ids, o, |ids|)) &&
      (forall k :: 0 <= k < |ids| ==> p.offsets[ids[k]] <= 0) &&
      forall k: nat :: k < |ids| ==>
        (p.offsets[ids[k]] < 0 <==> o[ids[k]] < 0 || off < 0 || Drops(types, ids, o, k + 1))
    decreases |ids|
  {
    hide AlignDown, Size, Alignment, Drops;
    if ids == [] {
      assert !Drops(types, ids, o, 0) by { DropsNone(types, ids, o); }
    } else {
      var rest := ids[1..];
      var p := PlaceOne(types, ids[0], o, off);
      if o[ids[0]] == 0 {
        AlignDownSign(off - Size(types[ids[0]]), Alignment(types[ids[0]]));
      }
      PlaceAllSinks(types, rest, p.offsets, p.low);
      PlaceOutside(types, rest, p.offsets, p.low);
      var q := PlaceAll(types, ids, o, off);
      assert ids[0] !in Ids(rest);
      DropsRest(types, ids, o, p.offsets, |rest|);
      forall k: nat | k < |ids|
        ensures q.offsets[ids[k]] < 0 <==> o[ids[k]] < 0 || off < 0 || Drops(types, ids, o, k + 1)
        ensures q.offsets[ids[k]] <= 0
      {
        DropsRest(types, ids, o, p.offsets, k);
        if k > 0 {
          assert ids[k] == rest[k - 1];
        } else {
          DropsZero(types, rest, p.offsets);
        }
      }
    }
  }

  lemma DropsNone(types: seq<Type>, ids: seq<nat>, o: seq<int>)
    requires |o| == |types| && ids == []
    ensures !Drops(types, ids, o, 0)
  {
  }

  lemma DropsZero(types: seq<Type>, ids: seq<nat>, o: seq<int>)
    requires |o| == |types| && forall k :: 0 <= k < |ids| ==> ids[k] < |types|
    ensures !Drops(types, ids, o, 0)
  {
  }

  lemma DropsRest(types: seq<Type>, ids: seq<nat>, o: seq<int>, p: seq<int>, n: nat)
    requires |types| == |o| == |p| && (forall k :: 0 <= k < |ids| ==> ids[k] < |types|) && ids != []
    requires forall k :: 0 < k < |ids| ==> p[ids[k]] == o[ids[k]]
    ensures Drops(types, ids, o, n + 1) <==>
      (o[ids[0]] == 0 && Size(types[ids[0]]) > 0) || Drops(types, ids[1..], p, n)
  {
    hide Size;
    var rest := ids[1..];
    if j: nat :| j < n + 1 && j < |ids| && o[ids[j]] == 0 && Size(types[ids[j]]) > 0 && j > 0 {
      assert rest[j - 1] == ids[j];
    }
    if j: nat :| j < n && j < |rest| && p[rest[j]] == 0 && Size(types[rest[j]]) > 0 {
      assert rest[j] == ids[j + 1];
    }
  }

  lemma DropsTakes(types: seq<Type>, ids: seq<nat>, o: seq<int>)
    requires |types| == |o| && (forall k :: 0 <= k < |ids| ==> ids[k] < |types|) && Unplaced(o, Ids(ids))
    ensures forall n: nat :: Drops(types, ids, o, n) <==> Takes(types, ids, n)
  {
    hide Size;
    assert forall j: nat :: j < |ids| ==> ids[j] in Ids(ids);
  }

  /** Laid out from offset 0 or below, all symbols of a statement end below the
      frame pointer if and only if each takes space or comes after one that
      does. */
  lemma {:induction false} LayoutSinks(types: seq<Type>, s: Stmt, o: seq<int>, off: int)
    requires |types| == |o| && InRange(s, |types|) && off <= 0 && Once(s) && Unplaced(o, Declared(s))
    ensures var p := Layout(types, s, o, off);
      p.low <= off && (Negative(p.offsets, Declared(s)) <==> AllBelow(types, s, off < 0))
    decreases s, 1
  {
    hide PlaceAll, LayoutAll, Takes, Negative;
    match s
    case Block(ids, body) => BlockSinks(types, ids, body, o, off);
    case While(t) => LayoutSinks(types, t, o, off);
    case For(t) => LayoutSinks(types, t, o, off);
    case If(t) => LayoutSinks(types, t, o, off);
    case IfElse(t, e) =>
      LayoutSinks(types, t, o, off);
      LayoutOutside(types, t, o, off);
      var p := Layout(types, t, o, off);
      LayoutSinks(types, e, p.offsets, off);
      LayoutOutside(types, e, p.offsets, off);
      NegativeBoth(p.offsets, Layout(types, e, p.offsets, off).offsets, Declared(t), Declared(e));
    case Simple => NoneNegative(o);
  }

  lemma NoneNegative(o: seq<int>)
    ensures Negative(o, {})
  {
  }

  /** After the second part is laid out the first is as it was. */
  lemma NegativeBoth(o: seq<int>, p: seq<int>, a: set<nat>, b: set<nat>)
    requires SameOutside(o, p, b) && a !! b
    ensures Negative(p, a + b) <==> Negative(o, a) && Negative(p, b)
  {
    if Negative(p, a + b) {
      assert Negative(o, a);
    }
  }

  /** The symbols of one block's own list. */
  lemma {:induction false} OwnSinks(types: seq<Type>, ids: seq<nat>, o: seq<int>, off: int)
    requires |types| == |o| && (forall k :: 0 <= k < |ids| ==> ids[k] < |types|) && off <= 0
    requires (forall j, k :: 0 <= j < k < |ids| ==> ids[j] != ids[k]) && Unplaced(o, Ids(ids))
    ensures var p := PlaceAll(types, ids, o, off);
      p.low <= off && (p.low < 0 <==> off < 0 || Takes(types, ids, |ids|)) &&
      (Negative(p.offsets, Ids(ids)) <==> (off < 0 || forall k: nat :: k < |ids| ==> After(types, ids, k, 0)))
  {
    hide PlaceAll, Takes, Size, Drops, Negative;
    assert forall k: nat :: k < |ids| ==> ids[k] in Ids(ids);
    PlaceAllSinks(types, ids, o, off);
    DropsTakes(types, ids, o);
    var p := PlaceAll(types, ids, o, off);
    NegativeIds(p.offsets, ids);
    forall k: nat | k < |ids| ensures p.offsets[ids[k]] < 0 <==> off < 0 || After(types, ids, k, 0) {
      assert Drops(types, ids, o, k + 1) <==> Takes(types, ids, k + 1);
    }
  }

  lemma {:induction false} BlockSinks(types: seq<Type>, ids: seq<nat>, body: Stmts, o: seq<int>, off: int)
    requires |types| == |o| && InRange(Block(ids, body), |types|) && off <= 0
    requires Once(Block(ids, body)) && Unplaced(o, Declared(Block(ids, body)))
    ensures var p := Layout(types, Block(ids, body), o, off);
      p.low <= off && (Negative(p.offsets, Declared(Block(ids, body))) <==> AllBelow(types, Block(ids, body), off < 0))
    decreases Block(ids, body), 0
  {
    hide PlaceAll, LayoutAll, Takes, Size, AllDeclared, Negative, After, ListBelow;
    OwnSinks(types, ids, o, off);
    PlaceOutside(types, ids, o, off);
    var p := PlaceAll(types, ids, o, off);
    ListSinks(types, body, p.offsets, p.low, p.low);
    LayoutAllOutside(types, body, p.offsets, p.low, p.low);
    var q := LayoutAll(types, body, p.offsets, p.low, p.low);
    NegativeBoth(p.offsets, q.offsets, Ids(ids), AllDeclared(body));
  }

  lemma NegativeIds(o: seq<int>, ids: seq<nat>)
    requires forall k :: 0 <= k < |ids| ==> ids[k] < |o|
    ensures Negative(o, Ids(ids)) <==> forall k: nat :: k < |ids| ==> o[ids[k]] < 0
  {
    assert forall k: nat :: k < |ids| ==> ids[k] in Ids(ids);
  }

  lemma {:induction false} ListSinks(types: seq<Type>, ss: Stmts, o: seq<int>, saved: int, low: int)
    requires |types| == |o| && AllInRange(ss, |types|) && low <= saved <= 0 && AllOnce(ss) && Unplaced(o, AllDeclared(ss))
    ensures var p := LayoutAll(types, ss, o, saved, low);
      p.low <= low && (Negative(p.offsets, AllDeclared(ss)) <==> ListBelow(types, ss, saved < 0))
    decreases ss, 1
  {
    hide Layout, Negative, AllBelow;
    if ss.Cons? {
      LayoutSinks(types, ss.head, o, saved);
      LayoutOutside(types, ss.head, o, saved);
      var p := Layout(types, ss.head, o, saved);
      ListSinks(types, ss.tail, p.offsets, saved, Min(low, p.low));
      LayoutAllOutside(types, ss.tail, p.offsets, saved, Min(low, p.low));
      NegativeBoth(p.offsets, LayoutAll(types, ss.tail, p.offsets, saved, Min(low, p.low)).offsets,
        Declared(ss.head), AllDeclared(ss.tail));
    } else {
      NoneNegative(o);
    }
  }

  /** Every symbol of a function, of whatever size, gets a place below the frame
      pointer if and only if each symbol of size 0 comes after one of positive
      size in its own block's list or in that of an enclosing block; parameters
      are placed twice, so for one of size 0 any parameter of positive size
      will do. */
  lemma {:induction false} PlacedIff(types: seq<Type>, ids: seq<nat>, body: Stmts, params: nat)
    requires InRange(Block(ids, body), |types|) && Once(Block(ids, body)) && params <= |ids| && params <= NUM_PARAM_REGS
    ensures var p := LayoutFunction(types, ids, body, params);
      |p.offsets| == |types| &&
      ((forall i: nat :: i in Declared(Block(ids, body)) ==> i < |types| && p.offsets[i] < 0) <==>
        (forall k: nat :: k < |ids| ==> After(types, ids, k, params)) &&
        ListBelow(types, body, Takes(types, ids, |ids|)))
  {
    hide PlaceAll, LayoutAll, Size, AllDeclared, Takes, After, ListBelow, Negative, Unplaced;
    var o := seq(|types|, _ => 0);
    InRangeDeclared(Block(ids, body), |types|);
    AllInRangeDeclared(body, |types|);
    var a := PlaceAll(types, ids[..params], o, 0);
    OwnTwice(types, ids, params);
    var b := PlaceAll(types, ids, a.offsets, a.low);
    BodyUnplaced(types, ids, params, AllDeclared(body));
    ListSinks(types, body, b.offsets, b.low, b.low);
    LayoutAllOutside(types, body, b.offsets, b.low, b.low);
    var p := LayoutAll(types, body, b.offsets, b.low, b.low);
    assert p == LayoutFunction(types, ids, body, params);
    NegativeBoth(b.offsets, p.offsets, Ids(ids), AllDeclared(body));
    AllNegative(p.offsets, Declared(Block(ids, body)));
  }

  lemma BodyUnplaced(types: seq<Type>, ids: seq<nat>, params: nat, rest: set<nat>)
    requires (forall k :: 0 <= k < |ids| ==> ids[k] < |types|) && params <= |ids| && forall i :: i in rest ==> i < |types|
    requires forall i :: i in ids ==> i !in rest
    ensures var a := PlaceAll(types, ids[..params], seq(|types|, _ => 0), 0);
      Unplaced(PlaceAll(types, ids, a.offsets, a.low).offsets, rest)
  {
    hide PlaceAll;
    var a := PlaceAll(types, ids[..params], seq(|types|, _ => 0), 0);
    PlaceOutside(types, ids[..params], seq(|types|, _ => 0), 0);
    PlaceOutside(types, ids, a.offsets, a.low);
  }

  /** The function's own list, of which the parameters are placed twice. */
  lemma {:induction false} OwnTwice(types: seq<Type>, ids: seq<nat>, params: nat)
    requires (forall k :: 0 <= k < |ids| ==> ids[k] < |types|) && params <= |ids|
    requires forall j, k :: 0 <= j < k < |ids| ==> ids[j] != ids[k]
    ensures var a := PlaceAll(types, ids[..params], seq(|types|, _ => 0), 0);
      var b := PlaceAll(types, ids, a.offsets, a.low);
      b.low <= 0 && (b.low < 0 <==> Takes(types, ids, |ids|)) &&
      (Negative(b.offsets, Ids(ids)) <==> forall k: nat :: k < |ids| ==> After(types, ids, k, params))
  {
    hide PlaceAll, Takes, Size, Drops, Negative, After;
    var o, first := seq(|types|, _ => 0), ids[..params];
    PlaceAllSinks(types, first, o, 0);
    PlaceOutside(types, first, o, 0);
    var a := PlaceAll(types, first, o, 0);
    forall k: nat | k < |ids|
      ensures a.offsets[ids[k]] <= 0 && (k >= params ==> a.offsets[ids[k]] == 0)
      ensures k < params ==> (a.offsets[ids[k]] < 0 <==> Drops(types, first, o, k + 1))
    {
      if k < params {
        assert first[k] == ids[k];
      } else {
        assert ids[k] !in Ids(first);
      }
    }
    PlaceAllSinks(types, ids, a.offsets, a.low);
    var b := PlaceAll(types, ids, a.offsets, a.low);
    TwicePlaced(types, ids, params, o, a.offsets, a.low);
    NegativeIds(b.offsets, ids);
  }

  lemma AllNegative(o: seq<int>, ids: set<nat>)
    requires forall i :: i in ids ==> i < |o|
    ensures Negative(o, ids) <==> forall i: nat :: i in ids ==> i < |o| && o[i] < 0
  {
  }

  /** What the first pass over the parameters leaves for the second. */
  lemma {:induction false} TwicePlaced(types: seq<Type>, ids: seq<nat>, params: nat, o: seq<int>, a: seq<int>, low: int)
    requires |types| == |o| == |a| && (forall k :: 0 <= k < |ids| ==> ids[k] < |types|) && params <= |ids|
    requires (forall j, k :: 0 <= j < k < |ids| ==> ids[j] != ids[k]) && forall i: nat :: i < |o| ==> o[i] == 0
    requires forall k: nat :: k < params ==> (a[ids[k]] < 0 <==> Drops(types, ids[..params], o, k + 1))
    requires forall k: nat :: params <= k < |ids| ==> a[ids[k]] == 0
    requires forall k: nat :: k < |ids| ==> a[ids[k]] <= 0
    requires low < 0 <==> Drops(types, ids[..params], o, params)
    ensures forall k: nat :: k < |ids| ==>
      (a[ids[k]] < 0 || low < 0 || Drops(types, ids, a, k + 1) <==> After(types, ids, k, params))
    ensures low < 0 || Drops(types, ids, a, |ids|) <==> Takes(types, ids, |ids|)
  {
    hide Size;
    var first := ids[..params];
    forall n: nat ensures Drops(types, first, o, n) <==> Takes(types, first, n) {
    }
    forall n: nat | n <= params ensures Takes(types, first, n) <==> Takes(types, ids, n) {
      if j: nat :| j < n && j < |ids| && Size(types[ids[j]]) > 0 {
        assert first[j] == ids[j];
      }
    }
    if low >= 0 {
      forall n: nat ensures Drops(types, ids, a, n) <==> Takes(types, ids, n) {
        if j: nat :| j < n && j < |ids| && Size(types[ids[j]]) > 0 {
          assert j >= params;
        }
      }
    }
  }
}
