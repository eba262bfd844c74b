/** The page-table code: tables filled, split and zeroed in place in memory,
    proved to compute the process model. */
module ProcCode {
  import opened Basics
  import opened Heap
  import opened Pages
  import opened Procs
  import opened ProcLife
  import opened Allocator

  lemma GoodAskable(h: HeapState, size: nat, align: nat)
    requires Good(h) && 0 < size <= FOUR_GB && PowerOfTwo(align) && align <= PAGE
    ensures Askable(h, size, align)
  {
    hide HeapOk, PowerOfTwo;
    GoodWords(h);
  }

  /** The record of one process. */
  class Process {
    var base: nat
    var l1: nat
    const l2: array<nat>
    const l3: array<nat>
    var l3Count: nat

    ghost predicate Valid()
      reads this
    {
      l2.Length == 4 && l3.Length == MAX_L3 && l2 != l3 && l3Count <= MAX_L3
    }

    ghost function View(): Proc
      reads this, l2, l3
      requires Valid()
    {
      Proc(base, l1, l2[..], l3[..l3Count])
    }

    constructor (base: nat)
      ensures Valid() && fresh(l2) && fresh(l3) && View() == Proc(base, 0, NO_TABLES, [])
    {
      this.base := base;
      l1 := 0;
      l2 := new nat[4](_ => 0);
      l3 := new nat[MAX_L3](_ => 0);
      l3Count := 0;
      new;
      assert l2[..] == NO_TABLES;
    }
  }

  /** Memory with entry `i` of the table at `t` set to `e`. */
  function Stored(mem: Memory, t: nat, i: nat, e: nat): Memory {
    if t in mem && i < |mem[t]| then
      var s: seq<nat> := mem[t][i := e];
      mem[t := s]
    else mem
  }

  /** A table filled up to entry `i`, the rest being whatever was there. */
  predicate FilledTo(mem: Memory, was: Memory, t: nat, full: seq<nat>, i: nat) {
    t in mem && |mem[t]| == ENTRIES == |full| && i <= ENTRIES && mem[t][..i] == full[..i] && mem == was[t := mem[t]]
  }

  lemma FilledMore(mem: Memory, was: Memory, t: nat, full: seq<nat>, i: nat)
    requires FilledTo(mem, was, t, full, i) && i < ENTRIES
    ensures FilledTo(Stored(mem, t, i, full[i]), was, t, full, i + 1)
  {
    var s := mem[t][i := full[i]];
    assert s[..i + 1] == full[..i + 1] by {
      assert forall k :: 0 <= k < i ==> s[k] == mem[t][..i][k] == full[..i][k];
    }
  }

  lemma FilledAll(mem: Memory, was: Memory, t: nat, full: seq<nat>)
    requires FilledTo(mem, was, t, full, ENTRIES)
    ensures mem == was[t := full]
  {
    assert mem[t][..ENTRIES] == mem[t] && full[..ENTRIES] == full;
  }

  /** The memory that holds the tables, and the heap they come from. */
  class PageMemory {
    const heap: Allocator
    var mem: Memory

    ghost predicate Valid()
      reads this, heap
    {
      heap.Valid() && Good(heap.view)
    }

    ghost function World(): World
      reads this, heap
    {
      Pages.World(heap.view, mem)
    }

    constructor (heap: Allocator)
      requires heap.Valid() && Good(heap.view)
      ensures Valid() && this.heap == heap && World() == Pages.World(heap.view, map[])
    {
      this.heap := heap;
      mem := map[];
    }

    /** A page of whatever was in memory before. */
    method NewPage() returns (t: nat)
      requires Valid()
      modifies this, heap
      ensures Valid() && (heap.view, t) == KmallocPage(old(heap.view))
      ensures t == 0 ==> mem == old(mem)
      ensures t != 0 ==> exists junk: seq<nat> :: |junk| == ENTRIES && mem == old(mem)[t := junk]
    {
      hide HeapOk, Alloc, Linked, LiveHeaders;
      Powers();
      GoodAskable(heap.view, PAGE, PAGE);
      PageFrom(heap.view);
      t := heap.Kmalloc(PAGE, PAGE);
      if t != 0 {
        assert |Zeros()| == ENTRIES;
        var junk: seq<nat> :| |junk| == ENTRIES;
        mem := mem[t := junk];
      }
    }

    method FillPages(t: nat, pa: nat, device: bool)
      requires t in mem && |mem[t]| == ENTRIES
      modifies this`mem
      ensures mem == old(mem)[t := PageTable(pa, device)]
    {
      ghost var full := PageTable(pa, device);
      hide FilledTo, PageTable, Stored;
      assert FilledTo(mem, mem, t, full, 0) by { NothingFilled(mem, t, full); }
      for i := 0 to ENTRIES
        invariant FilledTo(mem, old(mem), t, full, i)
      {
        FilledHas(mem, old(mem), t, full, i);
        FilledMore(mem, old(mem), t, full, i);
        PageEntry(pa, device, i);
        mem := Stored(mem, t, i, PageDesc(pa + i * PAGE, device));
      }
      FilledAll(mem, old(mem), t, full);
    }

    /** Level-2 table `i`. */
    method FillBlocks(t: nat, i: nat)
      requires t in mem && |mem[t]| == ENTRIES
      modifies this`mem
      ensures mem == old(mem)[t := BlockTable(i)]
    {
      ghost var full := BlockTable(i);
      hide FilledTo, BlockTable, Stored;
      assert FilledTo(mem, mem, t, full, 0) by { NothingFilled(mem, t, full); }
      for j := 0 to ENTRIES
        invariant FilledTo(mem, old(mem), t, full, j)
      {
        FilledHas(mem, old(mem), t, full, j);
        FilledMore(mem, old(mem), t, full, j);
        BlockEntryOf(i, j);
        var phys := i * (ENTRIES * BLOCK) + j * BLOCK;
        mem := Stored(mem, t, j, if phys < RAM_END then BlockDesc(phys, false) else BlockDesc(phys, true));
      }
      FilledAll(mem, old(mem), t, full);
    }

    /** The level-3 table of the block of `va`, made on demand; 0 when there is
        no slot or no memory. */
    method GetL3(p: Process, va: nat) returns (t: nat)
      requires Valid() && p.Valid() && ProcOk(World(), p.View())
      modifies this, heap, p`l3Count, p.l3
      ensures Valid() && p.Valid() && ProcOk(World(), p.View())
      ensures Found(World(), p.View(), t) == Procs.GetL3(old(World()), old(p.View()), va)
    {
      hide HeapOk, TablesOk, KmallocPage, PageTable, BlockAddr, AttrIndex, TableAddr, Linked, LiveHeaders, NoDup, Divided;
      ghost var w, v := World(), p.View();
      ghost var b := BlockNumber(va);
      GetL3Keeps(w, v, va);
      assert IsPage(w, v.l2[b / ENTRIES]);
      BlockIndex(va);
      var l1i := va / 0x4000_0000 % 4;
      var l2i := va / BLOCK % ENTRIES;
      var l2 := p.l2[l1i];
      var entry := mem[l2][l2i];
      if Kind(entry) == 3 {
        return TableAddr(entry);
      }
      if p.l3Count >= MAX_L3 {
        return 0;
      }
      PageFrom(heap.view);
      assert l2 in w.heap.live;
      t := NewPage();
      if t == 0 {
        return 0;
      }
      FillPages(t, BlockAddr(entry), AttrIndex(entry) != 0);
      p.l3[p.l3Count] := t;
      p.l3Count := p.l3Count + 1;
      assert p.l3[..p.l3Count] == v.l3 + [t];
      mem := Stored(mem, l2, l2i, TableDesc(t));
      assert mem == Divided(w.mem, v, b, t) by { DividedIs(w.mem, v, b, t); }
    }

    /** Make the pages overlapping `va` to `va + size` absent. */
    method UnmapRange(p: Process, va: nat, size: nat)
      requires Valid() && p.Valid() && ProcOk(World(), p.View())
      modifies this, heap, p`l3Count, p.l3
      ensures Valid() && p.Valid() && ProcOk(World(), p.View())
      ensures (World(), p.View()) == Procs.UnmapRange(old(World()), old(p.View()), va, size)
    {
      hide HeapOk, ProcOk, Linked, LiveHeaders, UnmapPage, Procs.GetL3, Good;
      var n := va / PAGE;
      var end := Wrap(va + size + (PAGE - 1)) / PAGE;
      while n < end
        invariant Valid() && p.Valid() && ProcOk(World(), p.View())
        invariant UnmapFrom(World(), p.View(), n, end) == Procs.UnmapRange(old(World()), old(p.View()), va, size)
      {
        UnmapStep(World(), p.View(), n, end);
        UnmapOne(p, n);
        n := n + 1;
      }
    }

    method UnmapOne(p: Process, n: nat)
      requires Valid() && p.Valid() && ProcOk(World(), p.View())
      modifies this, heap, p`l3Count, p.l3
      ensures Valid() && p.Valid() && ProcOk(World(), p.View())
      ensures (World(), p.View()) == UnmapPage(old(World()), old(p.View()), n)
    {
      hide HeapOk, TablesOk, Linked, LiveHeaders, Procs.GetL3, Owns, NoDup;
      ghost var w, v := World(), p.View();
      UnmapFolds(w, v, n);
      UnmapPageKeeps(w, v, n % PAGES);
      assert Owns(w, v);
      var t := GetL3(p, n * PAGE);
      if t != 0 {
        FoundPage(w, v, n);
        mem := Stored(mem, t, n % ENTRIES, 0);
      }
    }

    /** Give back all tables and the record. */
    method Free(p: Process)
      requires Valid() && p.Valid() && ProcOk(World(), p.View())
      modifies heap
      ensures Valid() && World() == FreeProc(old(World()), p.View())
    {
      FreeParts(p);
    }

    /** Free what has been allocated so far. */
    method FreeParts(p: Process)
      requires Valid() && p.Valid() && OnceLive(heap.view, Parts(p.View()))
      modifies heap
      ensures Valid() && World() == FreeProc(old(World()), p.View())
    {
      hide HeapOk, TablesOk, Linked, LiveHeaders, Heap.Free, Good, OnceLive;
      ghost var v := p.View();
      ghost var ps := Parts(v);
      ghost var was := heap.view;
      assert ps[0..] == ps;
      var i := 0;
      while i < p.l3Count
        invariant 0 <= i <= p.l3Count && Valid() && OnceLive(heap.view, ps[i..])
        invariant FreeEach(was, ps) == FreeEach(heap.view, ps[i..])
      {
        assert ps[i] == p.l3[i];
        FreeStep(heap.view, ps, i);
        if p.l3[i] != 0 { heap.Kfree(p.l3[i]); }
        i := i + 1;
      }
      ghost var n := p.l3Count;
      i := 0;
      while i < 4
        invariant 0 <= i <= 4 && Valid() && OnceLive(heap.view, ps[n + i..])
        invariant FreeEach(was, ps) == FreeEach(heap.view, ps[n + i..])
      {
        assert ps[n + i] == p.l2[i];
        FreeStep(heap.view, ps, n + i);
        if p.l2[i] != 0 { heap.Kfree(p.l2[i]); }
        i := i + 1;
      }
      assert ps[n + 4] == p.l1 && ps[n + 5] == p.base;
      FreeStep(heap.view, ps, n + 4);
      if p.l1 != 0 { heap.Kfree(p.l1); }
      FreeStep(heap.view, ps, n + 5);
      heap.Kfree(p.base);
      assert ps[n + 6..] == [];
    }

    /** Level-2 table `i`, wired into the root; false when memory runs out. */
    method AddTable(p: Process, i: nat, ghost o: World) returns (ok: bool)
      requires Valid() && p.Valid() && i < 4 && Building(o, World(), p.View(), i)
      modifies this, heap, p.l2
      ensures Valid() && p.Valid()
      ensures var page := KmallocPage(old(heap.view));
        ok == (page.1 != 0) && heap.view == page.0 && 0 !in heap.view.live &&
        (!ok ==> World() == old(World()) && p.View() == old(p.View())) &&
        (ok ==> (Building(o, World(), p.View(), i + 1) && p.View() == old(p.View()).(l2 := old(p.View()).l2[i := page.1]) &&
          old(p.l1) in old(mem) && |old(mem)[old(p.l1)]| == ENTRIES && mem == Wired(old(mem), p.l1, i, page.1)))
    {
      hide HeapOk, KmallocPage, Linked, LiveHeaders, BlockTable, Building, TableDesc;
      ghost var x, v := World(), p.View();
      PageFrom(heap.view);
      RootLive(o, x, v, i);
      var t := NewPage();
      ZeroNotLive(heap.view);
      if t == 0 {
        return false;
      }
      AddOne(o, x, v, i, heap.view, t);
      p.l2[i] := t;
      assert p.View() == v.(l2 := v.l2[i := t]);
      FillBlocks(t, i);
      mem := Stored(mem, p.l1, i, TableDesc(t));
      assert mem == Wired(x.mem, p.l1, i, t);
      ok := true;
    }

    /** All four level-2 tables; frees everything when memory runs out. */
    method AddAll(p: Process, ghost o: World) returns (ok: bool)
      requires Valid() && p.Valid() && Building(o, World(), p.View(), 0)
      modifies this, heap, p.l2
      ensures Valid() && p.Valid() && old(p.l1) in old(mem) && |old(mem)[old(p.l1)]| == ENTRIES
      ensures (World(), if ok then Some(p.View()) else None) == FinishProc(old(World()), old(p.View()))
    {
      hide HeapOk, KmallocPage, Linked, LiveHeaders, Building, OnceLive, AddTables, FreeProc;
      ghost var first, start := World(), p.View();
      RootLive(o, first, start, 0);
      var i := 0;
      while i < 4
        invariant 0 <= i <= 4 && Valid() && p.Valid()
        invariant Building(o, World(), p.View(), i) && |p.View().l2| == 4 && p.l1 in mem && |mem[p.l1]| == ENTRIES
        invariant AddTables(first, start, 0) == AddTables(World(), p.View(), i)
      {
        AddTablesStep(World(), p.View(), i);
        BuildingOnce(o, World(), p.View(), i);
        ok := AddTable(p, i, o);
        if !ok {
          FreeParts(p);
          return false;
        }
        RootLive(o, World(), p.View(), i + 1);
        i := i + 1;
      }
      AddTablesStep(World(), p.View(), 4);
      ok := true;
    }

    /** A process that maps everything; null when memory runs out. */
    method Create() returns (p: Process?)
      requires Valid()
      modifies this, heap
      ensures Valid() && World() == CreateProc(old(World())).0
      ensures if p == null then CreateProc(old(World())).1.None?
              else fresh(p) && fresh(p.l2) && fresh(p.l3) && p.Valid() && CreateProc(old(World())).1 == Some(p.View())
    {
      hide HeapOk, Alloc, KmallocPage, Linked, LiveHeaders, OnceLive, Building, FreeProc, FinishProc, PowerOfTwo, Zeros;
      ghost var w := World();
      Powers();
      GoodAskable(heap.view, PROC_SIZE, 16);
      AllocGood(heap.view, PROC_SIZE, 16);
      var base := heap.Kmalloc(PROC_SIZE, 16);
      if base == 0 {
        return null;
      }
      p := new Process(base);
      ghost var h := heap.view;
      PageFrom(h);
      ZeroNotLive(h);
      var l1 := NewPage();
      if l1 == 0 {
        OnlyRecord(h, base);
        FreeParts(p);
        return null;
      }
      p.l1 := l1;
      mem := mem[l1 := Zeros()];
      assert mem == w.mem[l1 := Zeros()];
      ZeroNotLive(heap.view);
      StartBuilding(w, heap.view, base, l1);
      assert p.View() == Proc(base, l1, NO_TABLES, []);
      var ok := AddAll(p, w);
      if !ok {
        p := null;
      }
    }
  }

  // ----- one step at a time -----

  lemma NothingFilled(mem: Memory, t: nat, full: seq<nat>)
    requires t in mem && |mem[t]| == ENTRIES == |full|
    ensures FilledTo(mem, mem, t, full, 0)
  {
  }

  lemma FilledHas(mem: Memory, was: Memory, t: nat, full: seq<nat>, i: nat)
    requires FilledTo(mem, was, t, full, i)
    ensures t in mem && |mem[t]| == ENTRIES
  {
  }

  lemma PageEntry(pa: nat, device: bool, i: nat)
    requires i < ENTRIES
    ensures PageTable(pa, device)[i] == PageDesc(pa + i * PAGE, device)
  {
  }

  lemma BlockEntryOf(i: nat, j: nat)
    requires j < ENTRIES
    ensures var phys := i * (ENTRIES * BLOCK) + j * BLOCK; BlockTable(i)[j] == BlockDesc(phys, phys >= RAM_END)
  {
    assert i * ENTRIES * BLOCK == i * (ENTRIES * BLOCK);
  }

  lemma BlockIndex(va: nat)
    ensures var b := BlockNumber(va); b / ENTRIES == va / 0x4000_0000 % 4 && b % ENTRIES == va / BLOCK % ENTRIES
  {
  }

  lemma DividedIs(mem: Memory, p: Proc, b: nat, t: nat)
    requires |p.l2| == 4 && b < BLOCKS && p.l2[b / ENTRIES] in mem && |mem[p.l2[b / ENTRIES]]| == ENTRIES
    requires t != p.l2[b / ENTRIES]
    ensures var l2 := p.l2[b / ENTRIES];
      var e := mem[l2][b % ENTRIES];
      var full := mem[t := PageTable(BlockAddr(e), AttrIndex(e) != 0)];
      l2 in full && Divided(mem, p, b, t) == full[l2 := full[l2][b % ENTRIES := TableDesc(t)]]
  {
    hide PageTable, BlockAddr, AttrIndex;
  }

  lemma UnmapStep(w: World, p: Proc, n: nat, last: nat)
    requires ProcOk(w, p) && Good(w.heap) && n < last
    ensures var (u, q) := UnmapPage(w, p, n);
      ProcOk(u, q) && Good(u.heap) && UnmapFrom(w, p, n, last) == UnmapFrom(u, q, n + 1, last)
  {
    hide ProcOk, Good, UnmapPage;
    UnmapFolds(w, p, n);
    UnmapPageKeeps(w, p, n % PAGES);
  }

  /** The table found is one of the process's pages. */
  lemma FoundPage(w: World, p: Proc, n: nat)
    requires ProcOk(w, p) && Good(w.heap)
    ensures var f := Procs.GetL3(w, p, n * PAGE);
      f.l3 != 0 ==> f.l3 in f.w.mem && |f.w.mem[f.l3]| == ENTRIES
  {
    hide TablesOk, HeapOk, Procs.GetL3, NoDup;
    GetL3Keeps(w, p, n * PAGE);
    var f := Procs.GetL3(w, p, n * PAGE);
    if f.l3 != 0 {
      var k :| 0 <= k < |f.p.l3| && f.p.l3[k] == f.l3;
      assert IsPage(f.w, f.p.l3[k]);
    }
  }

  /** Freeing the first of the remaining addresses. */
  lemma FreeStep(h: HeapState, ps: seq<nat>, i: nat)
    requires Good(h) && i < |ps| && OnceLive(h, ps[i..])
    ensures ps[i] != 0 ==> ps[i] in h.live
    ensures var g := if ps[i] == 0 then h else Heap.Free(h, ps[i]);
      Good(g) && OnceLive(g, ps[i + 1..]) && FreeEach(h, ps[i..]) == FreeEach(g, ps[i + 1..])
  {
    hide HeapOk, Heap.Free;
    var rest := ps[i..];
    assert rest[0] == ps[i] && rest[1..] == ps[i + 1..];
    ZeroNotLive(h);
    if ps[i] != 0 {
      FreeKeeps(h, ps[i]);
      var g := Heap.Free(h, ps[i]);
      forall k | 0 <= k < |rest[1..]| && rest[1..][k] != 0 ensures rest[1..][k] in g.live {
        assert rest[1..][k] == rest[k + 1];
      }
    } else {
      assert forall k :: 0 <= k < |rest[1..]| ==> rest[1..][k] == rest[k + 1];
    }
  }

  lemma OnlyRecord(h: HeapState, base: nat)
    requires base in h.live
    ensures OnceLive(h, Parts(Proc(base, 0, NO_TABLES, [])))
  {
  }

  lemma AddTablesStep(w: World, p: Proc, i: nat)
    requires |p.l2| == 4 && i <= 4 && p.l1 in w.mem && |w.mem[p.l1]| == ENTRIES
    ensures i == 4 ==> AddTables(w, p, i) == Made(w, p, true)
    ensures i < 4 ==>
      var page := KmallocPage(w.heap);
      AddTables(w, p, i) ==
        if page.1 == 0 then Made(w, p, false)
        else AddTables(World(page.0, Wired(w.mem, p.l1, i, page.1)), p.(l2 := p.l2[i := page.1]), i + 1)
  {
  }

  lemma BuildingOnce(o: World, w: World, p: Proc, i: nat)
    requires Building(o, w, p, i)
    ensures OnceLive(w.heap, Parts(p))
  {
  }

  lemma RootLive(o: World, w: World, p: Proc, i: nat)
    requires Building(o, w, p, i)
    ensures p.l1 in w.heap.live && p.l1 in w.mem && |w.mem[p.l1]| == ENTRIES && |p.l2| == 4 && p.l2[..] == p.l2
    ensures i < 4 ==> p.l2[i] == 0
    ensures p.l3 == [] && p.base in w.heap.live
  {
  }
}
