/** Making, splitting, unmapping and freeing the tables of a process. */
module Procs {
  import opened Basics
  import opened Heap
  import opened Pages

  function KmallocPage(h: HeapState): (HeapState, nat) {
    Alloc(h, PAGE, PAGE)
  }

  // ----- splitting a block -----

  /** Number of the 2 MB block of `va`, as its level-1 and level-2 indices. */
  function BlockNumber(va: nat): (b: nat)
    ensures b < BLOCKS
  {
    va / 0x4000_0000 % 4 * ENTRIES + va / BLOCK % ENTRIES
  }

  /** Whether splitting can go ahead: a slot and a page are left. */
  predicate CanSplit(h: HeapState, p: Proc) {
    |p.l3| < MAX_L3 && KmallocPage(h).1 != 0
  }

  datatype Found = Found(w: World, p: Proc, l3: nat)

  /** Memory with block `b` of `p` split into the table `t`. */
  function Divided(mem: Memory, p: Proc, b: nat, t: nat): Memory
    requires |p.l2| == 4 && b < BLOCKS && p.l2[b / ENTRIES] in mem && |mem[p.l2[b / ENTRIES]]| == ENTRIES
  {
    var e := BlockEntry(mem, p, b);
    var l2 := p.l2[b / ENTRIES];
    mem[t := PageTable(BlockAddr(e), AttrIndex(e) != 0)][l2 := mem[l2][b % ENTRIES := TableDesc(t)]]
  }

  /** The level-3 table of the block of `va`, made when the block is whole; 0
      when that is not possible. */
  function GetL3(w: World, p: Proc, va: nat): Found
    requires Owns(w, p)
  {
    assert IsPage(w, p.l2[BlockNumber(va) / ENTRIES]);
    var b := BlockNumber(va);
    var e := BlockEntry(w.mem, p, b);
    if Kind(e) == 3 then Found(w, p, TableAddr(e))
    else if |p.l3| >= MAX_L3 then Found(w, p, 0)
    else
      var (h, t) := KmallocPage(w.heap);
      if t == 0 then Found(w, p, 0)
      else Found(World(h, Divided(w.mem, p, b, t)), p.(l3 := p.l3 + [t]), t)
  }

  /** One allocation of a page: a page that was not live before. */
  lemma PageFrom(h: HeapState)
    requires Good(h)
    ensures var (g, t) := KmallocPage(h);
      Good(g) && g.start == h.start && g.end == h.end && (t == 0 ==> g == h) &&
      (t != 0 ==> (t !in h.live && g.live == h.live[t := g.live[t]] && t in g.live && t % PAGE == 0 &&
        t + PAGE <= h.end && g.live[t].asked == PAGE))
  {
    Powers();
    hide HeapOk, Alloc, PowerOfTwo;
    GoodWords(h);
    AllocKeeps(h, PAGE, PAGE);
    var (g, t) := KmallocPage(h);
    if t != 0 {
      GrantWithin(g, t);
    }
  }

  lemma GoodWords(h: HeapState)
    requires Good(h)
    ensures h.ptr < FOUR_GB + PAGE && h.end <= FOUR_GB
  {
  }

  lemma GrantWithin(g: HeapState, t: nat)
    requires HeapOk(g) && t in g.live
    ensures t + g.live[t].asked <= g.ptr
  {
    assert GrantOk(g, t, g.live[t]);
  }

  lemma NoDupAdd(a: seq<nat>, t: nat, b: seq<nat>)
    requires NoDup(a + b) && t !in a + b
    ensures NoDup(a + [t] + b)
  {
    var s, u := a + [t] + b, a + b;
    forall i, j | 0 <= i < j < |s| ensures s[i] != s[j] {
      var i0 := if i <= |a| then i else i - 1;
      var j0 := if j <= |a| then j else j - 1;
      assert i != |a| ==> s[i] == u[i0];
      assert j != |a| ==> s[j] == u[j0];
    }
  }

  /** Entries of the level-2 tables, when one of them is replaced. */
  lemma DividedEntries(mem: Memory, p: Proc, b: nat, t: nat, c: nat)
    requires |p.l2| == 4 && b < BLOCKS && c < BLOCKS
    requires forall i :: 0 <= i < 4 ==> p.l2[i] in mem && |mem[p.l2[i]]| == ENTRIES && p.l2[i] != t
    requires forall i, j :: 0 <= i < j < 4 ==> p.l2[i] != p.l2[j]
    ensures BlockEntry(Divided(mem, p, b, t), p, c) == if c == b then TableDesc(t) else BlockEntry(mem, p, c)
  {
    hide PageTable, BlockAddr, AttrIndex;
    if c / ENTRIES == b / ENTRIES && c % ENTRIES == b % ENTRIES {
      assert c == b;
    }
  }

  lemma PageTableIs(b: nat, t: nat, mem: Memory)
    requires b < BLOCKS && Entry(mem, t, 0) == Entry(mem, t, 0)
    requires t in mem && mem[t] == PageTable(b * BLOCK, Device(b * BLOCK))
    ensures forall k: nat :: k < ENTRIES ==> Entry(mem, t, k) == PageOf(b * ENTRIES + k) && Entry(mem, t, k) != 0
  {
    forall k: nat | k < ENTRIES ensures Entry(mem, t, k) == PageOf(b * ENTRIES + k) && Entry(mem, t, k) != 0 {
      assert b * BLOCK + k * PAGE == (b * ENTRIES + k) * PAGE;
      assert Device(b * BLOCK) <==> Device((b * ENTRIES + k) * PAGE);
    }
  }

  /** What belongs to `p` is distinct. */
  lemma PartsDistinct(p: Proc)
    requires |p.l2| == 4 && NoDup(Parts(p))
    ensures forall i, j :: 0 <= i < j < 4 ==> p.l2[i] != p.l2[j]
    ensures forall i :: 0 <= i < 4 ==> p.l2[i] != p.l1 && p.l2[i] !in p.l3 && p.l2[i] != p.base
    ensures p.l1 !in p.l3 && p.base !in p.l3 && p.l1 != p.base && NoDup(p.l3)
  {
    var s, n := Parts(p), |p.l3|;
    forall i | 0 <= i < 4 ensures s[n + i] == p.l2[i] {
    }
    assert s[n + 4] == p.l1 && s[n + 5] == p.base;
    assert forall k :: 0 <= k < n ==> s[k] == p.l3[k];
  }

  /** Getting a level-3 table keeps the whole state sound and every page as
      present or absent as it was.  It fails only for want of a slot or a page,
      and then changes nothing. */
  lemma {:induction false} GetL3Keeps(w: World, p: Proc, va: nat)
    requires ProcOk(w, p) && Good(w.heap)
    ensures var f := GetL3(w, p, va);
      Good(f.w.heap) && ProcOk(f.w, f.p) &&
      (forall n: nat :: n < PAGES ==> Hidden(f.w.mem, f.p, n) == Hidden(w.mem, p, n)) &&
      (f.l3 == 0 <==> !Split(w.mem, p, BlockNumber(va)) && !CanSplit(w.heap, p)) &&
      (f.l3 == 0 ==> f == Found(w, p, 0)) &&
      (f.l3 != 0 ==> (Split(f.w.mem, f.p, BlockNumber(va)) && f.l3 in f.p.l3 &&
        TableAddr(BlockEntry(f.w.mem, f.p, BlockNumber(va))) == f.l3))
  {
    var b := BlockNumber(va);
    if Split(w.mem, p, b) {
      hide TableAddr;
      assert BlockTableIn(w.mem, p, b) by { KindWhole(b); }
      var t := TableAddr(BlockEntry(w.mem, p, b));
      var k :| 0 <= k < |p.l3| && p.l3[k] == t;
      assert IsPage(w, p.l3[k]);
    } else if |p.l3| < MAX_L3 {
      PageFrom(w.heap);
      if KmallocPage(w.heap).1 != 0 {
        SplitKeeps(w, p, va);
      }
    }
  }

  lemma KindWhole(b: nat)
    requires b < BLOCKS
    ensures Kind(Whole(b)) == 1
  {
    BlockFields(b * BLOCK, Device(b * BLOCK));
  }

  /** The part of the splitting lemma where a block is really split. */
  lemma {:induction false} SplitKeeps(w: World, p: Proc, va: nat)
    requires ProcOk(w, p) && Good(w.heap) && CanSplit(w.heap, p) && !Split(w.mem, p, BlockNumber(va))
    ensures var f := GetL3(w, p, va); var b := BlockNumber(va);
      Good(f.w.heap) && ProcOk(f.w, f.p) && f.l3 != 0 && f.l3 in f.p.l3 &&
      Split(f.w.mem, f.p, b) && TableAddr(BlockEntry(f.w.mem, f.p, b)) == f.l3 &&
      (forall n: nat :: n < PAGES ==> Hidden(f.w.mem, f.p, n) == Hidden(w.mem, p, n))
  {
    hide KmallocPage, TableAddr, Kind, NoDup, HeapOk, BlockAddr, AttrIndex, PageTable, Device, IsPage;
    var b := BlockNumber(va);
    PageFrom(w.heap);
    var f := GetL3(w, p, va);
    var t := KmallocPage(w.heap).1;
    SplitOwns(w, p, va);
    SplitTables(w, p, b, t);
  }

  lemma SplitOwns(w: World, p: Proc, va: nat)
    requires ProcOk(w, p) && Good(w.heap) && CanSplit(w.heap, p) && !Split(w.mem, p, BlockNumber(va))
    ensures var f := GetL3(w, p, va); Owns(f.w, f.p)
    ensures KmallocPage(w.heap).1 !in Parts(p) && KmallocPage(w.heap).1 != 0
    ensures KmallocPage(w.heap).1 % PAGE == 0 && KmallocPage(w.heap).1 < FOUR_GB
  {
    hide KmallocPage, TableAddr, Kind, HeapOk, BlockAddr, AttrIndex, PageTable, Device, TablesOk;
    PageFrom(w.heap);
    var f := GetL3(w, p, va);
    var t := KmallocPage(w.heap).1;
    OwnedLive(w, p);
    assert t !in Parts(p);
    assert Parts(p) == p.l3 + (p.l2 + [p.l1, p.base]);
    NoDupAdd(p.l3, t, p.l2 + [p.l1, p.base]);
    assert Parts(f.p) == p.l3 + [t] + (p.l2 + [p.l1, p.base]);
    hide NoDup;
    forall q | IsPage(w, q) ensures IsPage(f.w, q) {
    }
  }

  lemma OwnedLive(w: World, p: Proc)
    requires Owns(w, p)
    ensures forall q :: q in Parts(p) ==> q in w.heap.live && q != 0
  {
  }

  lemma {:induction false} SplitTables(w: World, p: Proc, b: nat, t: nat)
    requires ProcOk(w, p) && b < BLOCKS && !Split(w.mem, p, b)
    requires t !in Parts(p) && t != 0 && t % PAGE == 0 && t < FOUR_GB && IsPage(w, p.l2[b / ENTRIES])
    ensures var mem := Divided(w.mem, p, b, t);
      var q := p.(l3 := p.l3 + [t]);
      TablesOk(mem, q) && Split(mem, q, b) && TableAddr(BlockEntry(mem, q, b)) == t &&
      (forall n: nat :: n < PAGES ==> Hidden(mem, q, n) == Hidden(w.mem, p, n))
  {
    var mem := Divided(w.mem, p, b, t);
    var q := p.(l3 := p.l3 + [t]);
    PartsDistinct(p);
    TableFields(t);
    assert BlockEntry(w.mem, p, b) == Whole(b);
    BlockFields(b * BLOCK, Device(b * BLOCK));
    assert t !in p.l3 && t !in p.l2 && t != p.l1 by { OutsideParts(p, t); }
    assert mem[t] == PageTable(b * BLOCK, Device(b * BLOCK));
    hide NoDup, BlockAddr, AttrIndex, PageTable, Device, TableAddr, Kind, Whole, PageOf, TableDesc, Attrs;
    PageTableIs(b, t, mem);
    forall c: nat | c < BLOCKS
      ensures BlockEntry(mem, q, c) == if c == b then TableDesc(t) else BlockEntry(w.mem, p, c)
    {
      assert forall i :: 0 <= i < 4 ==> IsPage(w, p.l2[i]);
      DividedEntries(w.mem, p, b, t, c);
    }
    forall u, k | u in p.l3 ensures Entry(mem, u, k) == Entry(w.mem, u, k) {
    }
    hide Divided, BlockEntry;
    DividedTables(w.mem, p, mem, b, t);
  }

  lemma OutsideParts(p: Proc, t: nat)
    requires t !in Parts(p)
    ensures t !in p.l3 && t !in p.l2 && t != p.l1
  {
    assert forall k :: 0 <= k < |p.l3| ==> Parts(p)[k] == p.l3[k];
    assert forall k :: 0 <= k < |p.l2| ==> Parts(p)[|p.l3| + k] == p.l2[k];
    assert Parts(p)[|p.l3| + |p.l2|] == p.l1;
  }

  /** One block's entry now points to a full table of its pages, and nothing
      else differs. */
  lemma {:induction false} DividedTables(mem0: Memory, p: Proc, mem: Memory, b: nat, t: nat)
    requires |p.l2| == 4 && TablesOk(mem0, p) && b < BLOCKS && !Split(mem0, p, b) && t !in p.l3
    requires TableAddr(TableDesc(t)) == t && Kind(TableDesc(t)) == 3
    requires forall c: nat :: c < BLOCKS ==> BlockEntry(mem, p, c) == if c == b then TableDesc(t) else BlockEntry(mem0, p, c)
    requires forall u, k :: u in p.l3 ==> Entry(mem, u, k) == Entry(mem0, u, k)
    requires forall k: nat :: k < ENTRIES ==> Entry(mem, t, k) == PageOf(b * ENTRIES + k) && Entry(mem, t, k) != 0
    requires forall i :: 0 <= i < 4 ==> Entry(mem, p.l1, i) == Entry(mem0, p.l1, i)
    ensures var q := p.(l3 := p.l3 + [t]);
      TablesOk(mem, q) && Split(mem, q, b) && TableAddr(BlockEntry(mem, q, b)) == t &&
      (forall n: nat :: n < PAGES ==> Hidden(mem, q, n) == Hidden(mem0, p, n))
  {
    hide TableAddr, Kind, Whole, PageOf, TableDesc, Entry, BlockEntry;
    var q := p.(l3 := p.l3 + [t]);
    SameBlocks(mem, p, q);
    forall c: nat | c < BLOCKS
      ensures BlockEntry(mem, q, c) == Whole(c) || (Split(mem, q, c) && BlockTableIn(mem, q, c))
    {
      if c == b {
      } else if BlockEntry(mem0, p, c) != Whole(c) {
        assert BlockTableIn(mem0, p, c);
      }
    }
    forall c: nat, d: nat | c < BLOCKS && d < BLOCKS && Split(mem, q, c) && BlockEntry(mem, q, c) == BlockEntry(mem, q, d)
      ensures c == d
    {
      if c != d {
        SplitInUse(mem0, p, if c == b then d else c, t);
      }
    }
    assert TablesOk(mem, q);
    forall n: nat | n < PAGES ensures Hidden(mem, q, n) == Hidden(mem0, p, n) {
      var c := n / ENTRIES;
      if c == b {
        assert n % ENTRIES < ENTRIES;
      } else if Split(mem0, p, c) {
        SplitInUse(mem0, p, c, t);
      }
    }
  }

  lemma SameBlocks(mem: Memory, p: Proc, q: Proc)
    requires |p.l2| == 4 && p.l2 == q.l2
    ensures forall c: nat :: c < BLOCKS ==> BlockEntry(mem, q, c) == BlockEntry(mem, p, c)
  {
  }

  lemma SplitInUse(mem: Memory, p: Proc, c: nat, t: nat)
    requires |p.l2| == 4 && TablesOk(mem, p) && c < BLOCKS && t !in p.l3
    requires TableAddr(TableDesc(t)) == t && Kind(TableDesc(t)) == 3
    ensures Split(mem, p, c) ==> BlockTableIn(mem, p, c)
    ensures BlockEntry(mem, p, c) != TableDesc(t)
  {
    KindWhole(c);
    hide TableAddr, Kind, Whole, PageOf, TableDesc, BlockEntry;
    assert BlockEntry(mem, p, c) == Whole(c) || BlockTableIn(mem, p, c);
  }

  /** Splitting on demand leaves the translation of every address below 4 GB as
      it was, address and attributes alike. */
  lemma SplitKeepsTranslation(w: World, p: Proc, va: nat, at: nat)
    requires ProcOk(w, p) && Good(w.heap) && at < FOUR_GB
    ensures var f := GetL3(w, p, va);
      f.p.l1 == p.l1 && Translate(f.w.mem, f.p.l1, at) == Translate(w.mem, p.l1, at)
  {
    hide TablesOk, Good, Hidden, Translate, Split, CanSplit;
    GetL3Keeps(w, p, va);
    TranslateIs(w, p, at);
    TranslateIs(GetL3(w, p, va).w, GetL3(w, p, va).p, at);
    SameRoot(w, p, va);
  }

  lemma SameRoot(w: World, p: Proc, va: nat)
    requires Owns(w, p)
    ensures GetL3(w, p, va).p.l1 == p.l1
  {
  }

  // ----- what one process's operations leave alone -----

  /** From `w` to `u` process `p` grew to `q`: what was live still is, what is
      new belongs to `q`, and memory of anyone else is the same. */
  ghost predicate Grew(w: World, p: Proc, u: World, q: Proc) {
    q.base == p.base && q.l1 == p.l1 && q.l2 == p.l2 && u.heap.start == w.heap.start && u.heap.end == w.heap.end &&
    (forall a :: a in w.heap.live ==> a in u.heap.live && u.heap.live[a] == w.heap.live[a]) &&
    (forall a :: a in u.heap.live && a !in w.heap.live ==> a in q.l3) &&
    (forall a :: a in p.l3 ==> a in q.l3) &&
    (forall a :: a in q.l3 ==> a in p.l3 || a !in w.heap.live) &&
    (forall a :: a in w.mem && a in w.heap.live && a !in Parts(p) ==> a in u.mem && u.mem[a] == w.mem[a])
  }

  lemma GrewTwice(w: World, p: Proc, u: World, q: Proc, x: World, r: Proc)
    requires Grew(w, p, u, q) && Grew(u, q, x, r)
    ensures Grew(w, p, x, r)
  {
    forall a | a in w.mem && a in w.heap.live && a !in Parts(p) ensures a in x.mem && x.mem[a] == w.mem[a] {
      assert a !in Parts(q) by {
        PartsIn(p, a);
        PartsIn(q, a);
      }
    }
  }

  lemma PartsIn(p: Proc, a: nat)
    ensures a in Parts(p) <==> a in p.l3 || a in p.l2 || a == p.l1 || a == p.base
  {
  }

  lemma GetL3Grew(w: World, p: Proc, va: nat)
    requires ProcOk(w, p) && Good(w.heap)
    ensures var f := GetL3(w, p, va); Grew(w, p, f.w, f.p)
  {
    hide KmallocPage, HeapOk, TablesOk, PageTable, BlockAddr, AttrIndex, TableDesc, Device;
    PageFrom(w.heap);
    assert p.l2[BlockNumber(va) / ENTRIES] in Parts(p) by { PartsIn(p, p.l2[BlockNumber(va) / ENTRIES]); }
  }

  /** Another process with memory of its own does not notice. */
  lemma OthersKept(w: World, p: Proc, u: World, q: Proc, o: Proc)
    requires Grew(w, p, u, q) && ProcOk(w, o)
    requires forall a :: a in Parts(o) ==> a !in Parts(p)
    ensures ProcOk(u, o)
    ensures forall n: nat :: n < PAGES ==> Hidden(u.mem, o, n) == Hidden(w.mem, o, n)
    ensures forall c: nat :: c < BLOCKS ==> Split(u.mem, o, c) == Split(w.mem, o, c)
  {
    OwnedLive(w, o);
    forall a | a in o.l3 || a in o.l2 || a == o.l1 ensures a in w.mem && a in u.mem && u.mem[a] == w.mem[a] {
      PartsIn(o, a);
      assert IsPage(w, a);
    }
    hide NoDup;
    assert Owns(u, o) by {
      assert forall a :: IsPage(w, a) && a in u.mem && u.mem[a] == w.mem[a] ==> IsPage(u, a);
    }
    hide Kind, TableAddr, TableDesc, Whole, PageOf, IsPage, Parts;
    SameTables(w.mem, u.mem, o);
  }

  lemma {:induction false} SameTables(mem: Memory, newMem: Memory, o: Proc)
    requires |o.l2| == 4 && TablesOk(mem, o)
    requires forall a :: a in o.l3 || a in o.l2 || a == o.l1 ==> a in mem && a in newMem && newMem[a] == mem[a]
    ensures TablesOk(newMem, o)
    ensures forall n: nat :: n < PAGES ==> Hidden(newMem, o, n) == Hidden(mem, o, n)
    ensures forall c: nat :: c < BLOCKS ==> Split(newMem, o, c) == Split(mem, o, c)
  {
    hide TableAddr, Kind, Whole, PageOf, TableDesc;
    forall c: nat | c < BLOCKS ensures BlockEntry(newMem, o, c) == BlockEntry(mem, o, c) {
      assert o.l2[c / ENTRIES] in o.l2;
    }
    forall a, k | a in o.l3 ensures Entry(newMem, a, k) == Entry(mem, a, k) {
    }
    forall i | 0 <= i < 4 ensures Entry(newMem, o.l1, i) == Entry(mem, o.l1, i) {
    }
    hide BlockEntry, Entry;
    forall c: nat | c < BLOCKS ensures Split(mem, o, c) ==> BlockTableIn(mem, o, c) {
      SplitHere(mem, o, c);
    }
    forall c: nat | c < BLOCKS
      ensures BlockEntry(newMem, o, c) == Whole(c) || (Split(newMem, o, c) && BlockTableIn(newMem, o, c))
    {
    }
    assert TablesOk(newMem, o);
    forall n: nat | n < PAGES ensures Hidden(newMem, o, n) == Hidden(mem, o, n) {
      assert BlockEntry(newMem, o, n / ENTRIES) == BlockEntry(mem, o, n / ENTRIES);
      SplitHere(mem, o, n / ENTRIES);
    }
  }

  lemma SplitHere(mem: Memory, p: Proc, c: nat)
    requires |p.l2| == 4 && TablesOk(mem, p) && c < BLOCKS
    ensures Split(mem, p, c) ==> BlockTableIn(mem, p, c)
    ensures !Split(mem, p, c) ==> BlockEntry(mem, p, c) == Whole(c)
  {
    KindWhole(c);
  }

  // ----- unmapping -----

  /** Make page number `n` absent, if its block is or can be split. */
  function UnmapPage(w: World, p: Proc, n: nat): (World, Proc)
    requires ProcOk(w, p) && Good(w.heap)
  {
    var f := GetL3(w, p, n * PAGE);
    if f.l3 == 0 || f.l3 !in f.w.mem || n % ENTRIES >= |f.w.mem[f.l3]| then (f.w, f.p)
    else (f.w.(mem := f.w.mem[f.l3 := f.w.mem[f.l3][n % ENTRIES := 0]]), f.p)
  }

  lemma NumberOf(n: nat)
    requires n < PAGES
    ensures BlockNumber(n * PAGE) == n / ENTRIES
  {
  }

  /** Unmapping one page hides that page exactly when its block is split
      already or can be, and changes no other page. */
  lemma {:induction false} UnmapPageKeeps(w: World, p: Proc, n: nat)
    requires ProcOk(w, p) && Good(w.heap) && n < PAGES
    ensures var (u, q) := UnmapPage(w, p, n);
      ProcOk(u, q) && Good(u.heap) && Grew(w, p, u, q) &&
      (forall m: nat :: m < PAGES ==>
        (Hidden(u.mem, q, m) <==> Hidden(w.mem, p, m) || (m == n && (Split(w.mem, p, n / ENTRIES) || CanSplit(w.heap, p)))))
  {
    hide HeapOk, GetL3, TablesOk, CanSplit, Kind, TableAddr, NoDup;
    NumberOf(n);
    GetL3Keeps(w, p, n * PAGE);
    GetL3Grew(w, p, n * PAGE);
    var f := GetL3(w, p, n * PAGE);
    if f.l3 != 0 {
      var k :| 0 <= k < |f.p.l3| && f.p.l3[k] == f.l3;
      assert IsPage(f.w, f.p.l3[k]);
      ZeroKeeps(f.w, f.p, n);
      var u := UnmapPage(w, p, n).0;
      PartsIn(f.p, f.l3);
      ZeroGrew(w, p, f.w, f.p, u, f.l3, f.w.mem[f.l3][n % ENTRIES := 0]);
    } else {
      NotSplitNotHidden(w.mem, p, n);
    }
  }

  lemma ZeroGrew(w: World, p: Proc, x: World, q: Proc, u: World, t: nat, s: seq<nat>)
    requires Grew(w, p, x, q) && t in q.l3 && u == World(x.heap, x.mem[t := s])
    ensures Grew(w, p, u, q)
  {
    forall a | a in w.mem && a in w.heap.live && a !in Parts(p) ensures a in u.mem && u.mem[a] == w.mem[a] {
      PartsIn(p, a);
      assert a != t;
    }
  }

  lemma NotSplitNotHidden(mem: Memory, p: Proc, n: nat)
    requires |p.l2| == 4 && n < PAGES
    ensures !Split(mem, p, n / ENTRIES) ==> !Hidden(mem, p, n)
  {
  }

  /** Zeroing one entry of a split block's table. */
  lemma {:induction false} ZeroKeeps(w: World, p: Proc, n: nat)
    requires ProcOk(w, p) && n < PAGES && Split(w.mem, p, n / ENTRIES)
    requires var t := TableAddr(BlockEntry(w.mem, p, n / ENTRIES)); t in p.l3 && IsPage(w, t)
    ensures var t := TableAddr(BlockEntry(w.mem, p, n / ENTRIES));
      var u := w.(mem := w.mem[t := w.mem[t][n % ENTRIES := 0]]);
      ProcOk(u, p) &&
      (forall m: nat :: m < PAGES ==> (Hidden(u.mem, p, m) <==> Hidden(w.mem, p, m) || m == n))
  {
    hide Kind, TableAddr, TableDesc, Whole, PageOf, NoDup;
    var b := n / ENTRIES;
    var t := TableAddr(BlockEntry(w.mem, p, b));
    var u := w.(mem := w.mem[t := w.mem[t][n % ENTRIES := 0]]);
    PartsDistinct(p);
    assert forall q :: IsPage(w, q) ==> IsPage(u, q);
    assert Owns(u, p);
    forall c: nat | c < BLOCKS ensures BlockEntry(u.mem, p, c) == BlockEntry(w.mem, p, c) {
      assert p.l2[c / ENTRIES] != t;
    }
    assert forall i :: 0 <= i < 4 ==> Entry(u.mem, p.l1, i) == Entry(w.mem, p.l1, i);
    forall a, k | a != t || k != n % ENTRIES ensures Entry(u.mem, a, k) == Entry(w.mem, a, k) {
    }
    assert Entry(u.mem, t, n % ENTRIES) == 0;
    hide BlockEntry, Entry, Owns, IsPage;
    forall c: nat | c < BLOCKS
      ensures BlockEntry(u.mem, p, c) == Whole(c) || (Split(u.mem, p, c) && BlockTableIn(u.mem, p, c))
    {
      SplitHere(w.mem, p, c);
    }
    assert TablesOk(u.mem, p);
    forall m: nat | m < PAGES ensures Hidden(u.mem, p, m) <==> Hidden(w.mem, p, m) || m == n {
      var c := m / ENTRIES;
      SplitHere(w.mem, p, c);
      SplitHere(w.mem, p, b);
      if c == b {
        assert m != n ==> m % ENTRIES != n % ENTRIES;
      } else if Split(w.mem, p, c) {
        assert TableAddr(BlockEntry(w.mem, p, c)) != t;
      }
    }
  }

  // ----- unmapping a range -----

  /** Addresses past 4 GB fold back: their pages are those 4 GB below. */
  lemma UnmapFolds(w: World, p: Proc, n: nat)
    requires ProcOk(w, p) && Good(w.heap)
    ensures UnmapPage(w, p, n) == UnmapPage(w, p, n % PAGES)
  {
    hide ProcOk, Good, KmallocPage, Divided, Kind, TableAddr;
    FoldedNumber(n);
    assert Owns(w, p) by { OkOwns(w, p); }
    assert GetL3(w, p, n * PAGE) == GetL3(w, p, n % PAGES * PAGE);
  }

  lemma OkOwns(w: World, p: Proc)
    requires ProcOk(w, p)
    ensures Owns(w, p)
  {
  }

  lemma FoldedNumber(n: nat)
    ensures BlockNumber(n * PAGE) == BlockNumber(n % PAGES * PAGE) && n % ENTRIES == n % PAGES % ENTRIES
  {
    var q, r := n / PAGES, n % PAGES;
    var va, x := n * PAGE, r * PAGE;
    assert va == q * FOUR_GB + x;
    assert va / 0x4000_0000 == 4 * q + x / 0x4000_0000;
    assert va / BLOCK == BLOCKS * q + x / BLOCK;
    AddTimes(x / 0x4000_0000, q, 4);
    assert BLOCKS * q == (4 * q) * ENTRIES;
    AddTimes(x / BLOCK, 4 * q, ENTRIES);
    assert n == (BLOCKS * q) * ENTRIES + r;
    AddTimes(r, BLOCKS * q, ENTRIES);
  }

  lemma AddTimes(x: nat, q: nat, a: nat)
    requires a > 0
    ensures (q * a + x) % a == x % a
  {
    assert x == x / a * a + x % a;
    assert q * a + x == (q + x / a) * a + x % a;
    QuotientOf(q + x / a, x % a, a);
  }

  /** Make the pages from number `n` up to `last` absent, one after another. */
  function UnmapFrom(w: World, p: Proc, n: nat, last: nat): (World, Proc)
    requires ProcOk(w, p) && Good(w.heap)
    decreases last - n
  {
    if n >= last then (w, p)
    else
      UnmapFolds(w, p, n);
      UnmapPageKeeps(w, p, n % PAGES);
      var (u, q) := UnmapPage(w, p, n);
      UnmapFrom(u, q, n + 1, last)
  }

  /** The first page the range overlaps and the first after it, as computed. */
  function UnmapRange(w: World, p: Proc, va: nat, size: nat): (World, Proc)
    requires ProcOk(w, p) && Good(w.heap)
  {
    UnmapFrom(w, p, va / PAGE, Wrap(va + size + (PAGE - 1)) / PAGE)
  }

  /** One page's unmapping splits its block when it is whole and can be split,
      taking one slot and one page of memory. */
  lemma {:induction false} UnmapPageSplits(w: World, p: Proc, n: nat)
    requires ProcOk(w, p) && Good(w.heap) && n < PAGES
    ensures var (u, q) := UnmapPage(w, p, n);
      ProcOk(u, q) && |q.l2| == 4 &&
      (forall c: nat :: c < BLOCKS ==>
        (Split(u.mem, q, c) <==> Split(w.mem, p, c) || (c == n / ENTRIES && CanSplit(w.heap, p)))) &&
      (if !Split(w.mem, p, n / ENTRIES) && CanSplit(w.heap, p) then |q.l3| == |p.l3| + 1 && u.heap == KmallocPage(w.heap).0
       else q.l3 == p.l3 && u.heap == w.heap)
  {
    hide HeapOk, TablesOk, Kind, TableAddr, TableDesc, NoDup, KmallocPage, Divided, Whole, PageOf;
    NumberOf(n);
    var va := n * PAGE;
    GetL3Keeps(w, p, va);
    UnmapPageKeeps(w, p, n);
    var f := GetL3(w, p, va);
    if f.l3 != 0 {
      var k :| 0 <= k < |f.p.l3| && f.p.l3[k] == f.l3;
      assert IsPage(f.w, f.p.l3[k]);
      PartsDistinct(f.p);
      var u := UnmapPage(w, p, n).0;
      forall c: nat | c < BLOCKS ensures BlockEntry(u.mem, f.p, c) == BlockEntry(f.w.mem, f.p, c) {
        assert f.p.l2[c / ENTRIES] != f.l3;
      }
      if !Split(w.mem, p, n / ENTRIES) {
        SplitsOne(w, p, va);
      }
    }
  }

  lemma SplitsOne(w: World, p: Proc, va: nat)
    requires ProcOk(w, p) && Good(w.heap) && CanSplit(w.heap, p) && !Split(w.mem, p, BlockNumber(va))
    ensures var f := GetL3(w, p, va);
      f.p.l2 == p.l2 && f.p.l3 == p.l3 + [f.l3] && f.w.heap == KmallocPage(w.heap).0 &&
      forall c: nat :: c < BLOCKS ==>
        (Split(f.w.mem, f.p, c) <==> Split(w.mem, p, c) || c == BlockNumber(va))
  {
    hide HeapOk, TablesOk, NoDup, KmallocPage, Divided, TableDesc, TableAddr;
    var b := BlockNumber(va);
    var t := KmallocPage(w.heap).1;
    SplitOwns(w, p, va);
    OutsideParts(p, t);
    PartsDistinct(p);
    TableFields(t);
    forall c: nat | c < BLOCKS
      ensures BlockEntry(Divided(w.mem, p, b, t), p, c) == if c == b then TableDesc(t) else BlockEntry(w.mem, p, c)
    {
      assert forall i :: 0 <= i < 4 ==> IsPage(w, p.l2[i]);
      DividedEntries(w.mem, p, b, t, c);
    }
    var f := GetL3(w, p, va);
    SameBlocks(f.w.mem, p, f.p);
  }

  /** Once no block can be split, unmapping splits none. */
  lemma {:induction false} StuckFrom(w: World, p: Proc, n: nat, last: nat, c: nat)
    requires ProcOk(w, p) && Good(w.heap) && last <= PAGES && c < BLOCKS && !CanSplit(w.heap, p)
    ensures var (u, q) := UnmapFrom(w, p, n, last);
      |q.l2| == 4 && (Split(u.mem, q, c) <==> Split(w.mem, p, c))
    decreases last - n
  {
    hide TablesOk, HeapOk, Split, UnmapPage, KmallocPage, Hidden, NoDup;
    if n < last {
      UnmapPageKeeps(w, p, n);
      UnmapPageSplits(w, p, n);
      var (u, q) := UnmapPage(w, p, n);
      StuckFrom(u, q, n + 1, last, c);
    }
  }

  /** Unmapping a range hides, of the pages in it, exactly those whose block is
      split in the end; every other page stays as it was. */
  lemma {:induction false} UnmapFromKeeps(w: World, p: Proc, n: nat, last: nat)
    requires ProcOk(w, p) && Good(w.heap) && last <= PAGES
    ensures var (u, q) := UnmapFrom(w, p, n, last);
      ProcOk(u, q) && Good(u.heap) && Grew(w, p, u, q) &&
      (forall m: nat :: m < PAGES ==>
        (Hidden(u.mem, q, m) <==> Hidden(w.mem, p, m) || (n <= m < last && Split(u.mem, q, m / ENTRIES))))
    decreases last - n
  {
    hide TablesOk, HeapOk, Split, UnmapPage, KmallocPage, Hidden, NoDup, Grew, ProcOk, Good, CanSplit;
    assert Owns(w, p) by { OkOwns(w, p); }
    if n >= last {
      GrewNothing(w, p);
    } else {
      UnmapPageKeeps(w, p, n);
      UnmapPageSplits(w, p, n);
      var (x, r) := UnmapPage(w, p, n);
      UnmapFromKeeps(x, r, n + 1, last);
      var (u, q) := UnmapFrom(x, r, n + 1, last);
      GrewTwice(w, p, x, r, u, q);
      SplitStays(x, r, n + 1, last, n / ENTRIES);
      if !Split(x.mem, r, n / ENTRIES) {
        assert !CanSplit(w.heap, p);
        assert (x, r) == (w, p) by { UnmapNothing(w, p, n); }
        StuckFrom(x, r, n + 1, last, n / ENTRIES);
      }
    }
  }

  lemma GrewNothing(w: World, p: Proc)
    ensures Grew(w, p, w, p)
  {
  }

  lemma UnmapNothing(w: World, p: Proc, n: nat)
    requires ProcOk(w, p) && Good(w.heap) && n < PAGES && !Split(w.mem, p, n / ENTRIES) && !CanSplit(w.heap, p)
    ensures UnmapPage(w, p, n) == (w, p)
  {
    hide TablesOk, HeapOk, KmallocPage, GetL3, NoDup;
    NumberOf(n);
    GetL3Keeps(w, p, n * PAGE);
  }

  /** A block that is split stays split. */
  lemma {:induction false} SplitStays(w: World, p: Proc, n: nat, last: nat, c: nat)
    requires ProcOk(w, p) && Good(w.heap) && last <= PAGES && c < BLOCKS
    ensures var (u, q) := UnmapFrom(w, p, n, last);
      |q.l2| == 4 && (Split(w.mem, p, c) ==> Split(u.mem, q, c))
    decreases last - n
  {
    hide TablesOk, HeapOk, Split, UnmapPage, KmallocPage, Hidden, NoDup;
    if n < last {
      UnmapPageKeeps(w, p, n);
      UnmapPageSplits(w, p, n);
      var (u, q) := UnmapPage(w, p, n);
      SplitStays(u, q, n + 1, last, c);
    }
  }

  // ----- when a whole range can be unmapped -----

  /** How many whole blocks the pages from `n` up to `last` touch. */
  function Needed(mem: Memory, p: Proc, n: nat, last: nat): nat
    requires |p.l2| == 4 && last <= PAGES
    decreases last - n
  {
    if n >= last then 0
    else
      (if !Split(mem, p, n / ENTRIES) && (n + 1 >= last || (n + 1) / ENTRIES != n / ENTRIES) then 1 else 0) +
      Needed(mem, p, n + 1, last)
  }

  /** The heap can give out `k` pages. */
  predicate CanServe(h: HeapState, k: nat)
    decreases k
  {
    k == 0 || (KmallocPage(h).1 != 0 && CanServe(KmallocPage(h).0, k - 1))
  }

  predicate Enough(w: World, p: Proc, n: nat, last: nat)
    requires |p.l2| == 4 && last <= PAGES
  {
    var k := Needed(w.mem, p, n, last);
    |p.l3| + k <= MAX_L3 && CanServe(w.heap, k)
  }

  lemma {:induction false} NeededSome(mem: Memory, p: Proc, n: nat, last: nat)
    requires |p.l2| == 4 && n < last <= PAGES && !Split(mem, p, n / ENTRIES)
    ensures Needed(mem, p, n, last) >= 1
    decreases last - n
  {
    if n + 1 < last && (n + 1) / ENTRIES == n / ENTRIES {
      NeededSome(mem, p, n + 1, last);
    }
  }

  /** Splitting block `b` lowers the need of the pages from `n` on by one if
      they reach it, and else not at all. */
  lemma {:induction false} NeededLess(mem: Memory, p: Proc, mem1: Memory, q: Proc, n: nat, last: nat, b: nat)
    requires |p.l2| == 4 && |q.l2| == 4 && last <= PAGES && b < BLOCKS && !Split(mem, p, b)
    requires forall c: nat :: c < BLOCKS ==> (Split(mem1, q, c) <==> Split(mem, p, c) || c == b)
    requires n / ENTRIES >= b
    ensures Needed(mem1, q, n, last) + (if n < last && n / ENTRIES == b then 1 else 0) == Needed(mem, p, n, last)
    decreases last - n
  {
    hide Split;
    if n < last {
      NeededLess(mem, p, mem1, q, n + 1, last, b);
    }
  }

  lemma {:induction false} NeededSame(mem: Memory, p: Proc, mem1: Memory, q: Proc, n: nat, last: nat)
    requires |p.l2| == 4 && |q.l2| == 4 && last <= PAGES
    requires forall c: nat :: c < BLOCKS ==> (Split(mem1, q, c) <==> Split(mem, p, c))
    ensures Needed(mem1, q, n, last) == Needed(mem, p, n, last)
    decreases last - n
  {
    hide Split;
    if n < last {
      NeededSame(mem, p, mem1, q, n + 1, last);
    }
  }

  ghost predicate AllHidden(mem: Memory, p: Proc, n: nat, last: nat)
    requires |p.l2| == 4
  {
    forall m: nat :: n <= m < last && m < PAGES ==> Hidden(mem, p, m)
  }

  /** A whole range becomes absent exactly when there are slots and memory for
      every whole block that it touches. */
  lemma {:induction false} UnmapFromAll(w: World, p: Proc, n: nat, last: nat)
    requires ProcOk(w, p) && Good(w.heap) && last <= PAGES
    ensures var (u, q) := UnmapFrom(w, p, n, last);
      |q.l2| == 4 && (AllHidden(u.mem, q, n, last) <==> Enough(w, p, n, last))
    decreases last - n
  {
    hide TablesOk, HeapOk, Split, UnmapPage, KmallocPage, Hidden, NoDup, Grew, ProcOk, Good;
    assert Owns(w, p) by { OkOwns(w, p); }
    UnmapFromKeeps(w, p, n, last);
    if n < last {
      var b := n / ENTRIES;
      UnmapPageKeeps(w, p, n);
      UnmapPageSplits(w, p, n);
      var (x, r) := UnmapPage(w, p, n);
      assert Owns(x, r) by { OkOwns(x, r); }
      UnmapFromKeeps(x, r, n + 1, last);
      UnmapFromAll(x, r, n + 1, last);
      var (u, q) := UnmapFrom(x, r, n + 1, last);
      assert Owns(u, q) by { OkOwns(u, q); }
      NotSplitNotHidden(w.mem, p, n);
      assert AllHidden(u.mem, q, n, last) <==> Hidden(u.mem, q, n) && AllHidden(u.mem, q, n + 1, last);
      if Split(w.mem, p, b) {
        NeededSame(w.mem, p, x.mem, r, n + 1, last);
      } else if CanSplit(w.heap, p) {
        NeededLess(w.mem, p, x.mem, r, n, last, b);
      } else {
        NeededSome(w.mem, p, n, last);
      }
    }
  }

  /** `proc_unmap_range` with a positive size below 4 GB makes absent the pages
      overlapping the range and no others, if slots and memory last; and it
      does make them all absent exactly when they do. */
  lemma {:induction false} UnmapRangeExact(w: World, p: Proc, va: nat, size: nat)
    requires ProcOk(w, p) && Good(w.heap) && size > 0 && va + size <= FOUR_GB
    ensures var n, last := va / PAGE, (va + size + (PAGE - 1)) / PAGE;
      var (u, q) := UnmapRange(w, p, va, size);
      last <= PAGES && ProcOk(u, q) && Good(u.heap) && Grew(w, p, u, q) &&
      (forall m: nat :: m < PAGES ==> (n <= m < last <==> m * PAGE < va + size && va < (m + 1) * PAGE)) &&
      (AllHidden(u.mem, q, n, last) <==> Enough(w, p, n, last)) &&
      (Enough(w, p, n, last) ==> forall m: nat :: m < PAGES ==>
        (Hidden(u.mem, q, m) <==> Hidden(w.mem, p, m) || n <= m < last)) &&
      (forall m: nat :: m < PAGES && !(n <= m < last) ==> (Hidden(u.mem, q, m) <==> Hidden(w.mem, p, m)))
  {
    hide ProcOk, Good, Hidden, UnmapFrom, Needed, CanServe, Grew, Split;
    OkOwns(w, p);
    UnmapFromKeeps(w, p, va / PAGE, (va + size + (PAGE - 1)) / PAGE);
    UnmapFromAll(w, p, va / PAGE, (va + size + (PAGE - 1)) / PAGE);
  }

  /** With size 0 no page overlaps the range, yet the page of `va` is unmapped
      like any other unless `va` is page aligned. */
  lemma UnmapNothingAt(w: World, p: Proc, va: nat)
    requires ProcOk(w, p) && Good(w.heap) && va < FOUR_GB
    ensures UnmapRange(w, p, va, 0) == if va % PAGE == 0 then (w, p) else UnmapPage(w, p, va / PAGE)
  {
    hide ProcOk, Good, UnmapPage;
    var n := va / PAGE;
    assert Wrap(va + 0 + (PAGE - 1)) / PAGE == if va % PAGE == 0 then n else n + 1;
    if va % PAGE != 0 {
      UnmapPageKeeps(w, p, n);
      assert n % PAGES == n;
      var (u, q) := UnmapPage(w, p, n);
      assert UnmapFrom(u, q, n + 1, n + 1) == (u, q);
    }
  }
}
