/** Making and freeing a process, and what that does to the heap. */
module ProcLife {
  import opened Basics
  import opened Heap
  import opened Pages
  import opened Procs

  // ----- freeing -----

  /** Free the blocks at the nonzero addresses of `ps`, in order. */
  function FreeEach(h: HeapState, ps: seq<nat>): HeapState
    decreases |ps|
  {
    if ps == [] then h
    else FreeEach(if ps[0] in h.live then Free(h, ps[0]) else h, ps[1..])
  }

  /** Every nonzero address is live when its turn comes: nothing is freed twice
      or without having been allocated. */
  predicate Releasable(h: HeapState, ps: seq<nat>)
    decreases |ps|
  {
    ps == [] ||
    ((ps[0] == 0 || ps[0] in h.live) && Releasable(if ps[0] in h.live then Free(h, ps[0]) else h, ps[1..]))
  }

  /** `proc_free`: level-3 tables, level-2 tables, root, and the record. */
  function FreeProc(w: World, p: Proc): World {
    w.(heap := FreeEach(w.heap, Parts(p)))
  }

  /** The addresses of `ps` other than 0 are live and occur once. */
  ghost predicate OnceLive(h: HeapState, ps: seq<nat>) {
    (forall k :: 0 <= k < |ps| && ps[k] != 0 ==> ps[k] in h.live) &&
    (forall j, k :: 0 <= j < k < |ps| && ps[j] != 0 ==> ps[j] != ps[k])
  }

  lemma {:induction false} ReleaseIs(h: HeapState, ps: seq<nat>)
    requires Good(h) && OnceLive(h, ps)
    ensures Releasable(h, ps)
    ensures var g := FreeEach(h, ps);
      Good(g) && g.start == h.start && g.end == h.end && g.ptr == h.ptr &&
      (forall a :: a in g.live <==> a in h.live && a !in ps) &&
      (forall a :: a in g.live ==> g.live[a] == h.live[a])
    decreases |ps|
  {
    hide HeapOk, Free;
    if ps != [] {
      ZeroNotLive(h);
      var g := if ps[0] in h.live then Free(h, ps[0]) else h;
      if ps[0] in h.live {
        FreeKeeps(h, ps[0]);
      }
      assert OnceLive(g, ps[1..]) by {
        forall k | 0 <= k < |ps[1..]| && ps[1..][k] != 0 ensures ps[1..][k] in g.live {
          assert ps[1..][k] == ps[k + 1];
        }
      }
      ReleaseIs(g, ps[1..]);
      assert ps == [ps[0]] + ps[1..];
    }
  }

  lemma ZeroNotLive(h: HeapState)
    requires HeapOk(h)
    ensures 0 !in h.live
  {
    if 0 in h.live {
      assert false;
    }
  }

  /** Freeing a process gives back exactly what it owns, each part once. */
  lemma {:induction false} FreeProcKeeps(w: World, p: Proc)
    requires ProcOk(w, p) && Good(w.heap)
    ensures Releasable(w.heap, Parts(p))
    ensures var u := FreeProc(w, p);
      Good(u.heap) && u.mem == w.mem && u.heap.start == w.heap.start && u.heap.end == w.heap.end &&
      (forall a :: a in u.heap.live <==> a in w.heap.live && a !in Parts(p)) &&
      (forall a :: a in u.heap.live ==> u.heap.live[a] == w.heap.live[a])
  {
    hide HeapOk, TablesOk, IsPage, FreeEach, Releasable;
    OwnedLive(w, p);
    ReleaseIs(w.heap, Parts(p));
  }

  // ----- making -----

  datatype Made = Made(w: World, p: Proc, ok: bool)

  /** Memory with level-2 table `i` of the root at `l1` filled in at `t`. */
  function Wired(mem: Memory, l1: nat, i: nat, t: nat): (r: Memory)
    requires i < 4 && l1 in mem && |mem[l1]| == ENTRIES
    ensures l1 in r && |r[l1]| == ENTRIES
  {
    var filled := mem[t := BlockTable(i)];
    filled[l1 := filled[l1][i := TableDesc(t)]]
  }

  /** Level-2 tables `i` and up, each wired into the root; stops when memory
      runs out. */
  function AddTables(w: World, p: Proc, i: nat): Made
    requires |p.l2| == 4 && i <= 4 && p.l1 in w.mem && |w.mem[p.l1]| == ENTRIES
    decreases 4 - i
  {
    if i == 4 then Made(w, p, true)
    else
      var page := KmallocPage(w.heap);
      if page.1 == 0 then Made(w, p, false)
      else AddTables(World(page.0, Wired(w.mem, p.l1, i, page.1)), p.(l2 := p.l2[i := page.1]), i + 1)
  }

  /** Continue with the level-2 tables once record and root are there. */
  function FinishProc(w: World, p: Proc): (World, Option<Proc>)
    requires |p.l2| == 4 && p.l1 in w.mem && |w.mem[p.l1]| == ENTRIES
  {
    var m := AddTables(w, p, 0);
    if m.ok then (m.w, Some(m.p)) else (FreeProc(m.w, m.p), None)
  }

  const NO_TABLES: seq<nat> := [0, 0, 0, 0]

  /** Continue with the root table once the record is there. */
  function RootProc(w: World, base: nat): (World, Option<Proc>) {
    var page := KmallocPage(w.heap);
    if page.1 == 0 then (FreeProc(World(page.0, w.mem), Proc(base, 0, NO_TABLES, [])), None)
    else FinishProc(World(page.0, w.mem[page.1 := Zeros()]), Proc(base, page.1, NO_TABLES, []))
  }

  function CreateProc(w: World): (World, Option<Proc>) {
    var block := Alloc(w.heap, PROC_SIZE, 16);
    if block.1 == 0 then (w, None) else RootProc(World(block.0, w.mem), block.1)
  }

  /** An allocation of up to 4 GB at up to page alignment. */
  lemma AllocGood(h: HeapState, size: nat, align: nat)
    requires Good(h) && 0 < size <= FOUR_GB && PowerOfTwo(align) && align <= PAGE
    ensures var (g, t) := Alloc(h, size, align);
      Good(g) && g.start == h.start && g.end == h.end && (t == 0 ==> g == h) &&
      (t != 0 ==> t !in h.live && t in g.live && g.live == h.live[t := g.live[t]])
  {
    hide HeapOk, Alloc, PowerOfTwo;
    GoodWords(h);
    AllocKeeps(h, size, align);
  }

  /** A process under construction, with `i` level-2 tables, on top of what was
      live in `o`. */
  ghost predicate Building(o: World, w: World, p: Proc, i: nat) {
    |p.l2| == 4 && i <= 4 && p.l3 == [] && OnceLive(w.heap, Parts(p)) &&
    p.base != 0 && p.base in w.heap.live && IsPage(w, p.l1) && |w.mem[p.l1]| == ENTRIES &&
    (forall j :: 0 <= j < i ==> IsPage(w, p.l2[j]) && w.mem[p.l2[j]] == BlockTable(j) && w.mem[p.l1][j] == TableDesc(p.l2[j])) &&
    (forall j :: i <= j < 4 ==> p.l2[j] == 0) && Above(o, w, p)
  }

  /** What is live is what was live in `o` and what `p` owns, separately; the
      memory of others is as it was. */
  ghost predicate Above(o: World, w: World, p: Proc) {
    w.heap.start == o.heap.start && w.heap.end == o.heap.end &&
    (forall a :: a in o.heap.live ==> a in w.heap.live && w.heap.live[a] == o.heap.live[a] && a !in Parts(p)) &&
    (forall a :: a in w.heap.live && a !in o.heap.live ==> a in Parts(p)) &&
    (forall a :: a in o.mem && a in o.heap.live ==> a in w.mem && w.mem[a] == o.mem[a])
  }

  lemma {:induction false} AddTablesKeeps(o: World, w: World, p: Proc, i: nat)
    requires Building(o, w, p, i) && Good(w.heap)
    ensures var m := AddTables(w, p, i);
      Good(m.w.heap) && exists k: nat :: k <= 4 && Building(o, m.w, m.p, k) && (m.ok <==> k == 4)
    decreases 4 - i
  {
    hide KmallocPage, HeapOk, BlockTable, TableDesc;
    if i < 4 {
      PageFrom(w.heap);
      var (h, t) := KmallocPage(w.heap);
      if t != 0 {
        var u := World(h, Wired(w.mem, p.l1, i, t));
        var q := p.(l2 := p.l2[i := t]);
        ZeroNotLive(h);
        AddOne(o, w, p, i, h, t);
        AddTablesKeeps(o, u, q, i + 1);
      }
    }
  }

  lemma {:induction false} AddOne(o: World, w: World, p: Proc, i: nat, h: HeapState, t: nat)
    requires Building(o, w, p, i) && i < 4 && t != 0 && t !in w.heap.live && t in h.live && h.live == w.heap.live[t := h.live[t]]
    requires t % PAGE == 0 && t < FOUR_GB && h.start == w.heap.start && h.end == w.heap.end && 0 !in h.live
    ensures Building(o, World(h, Wired(w.mem, p.l1, i, t)), p.(l2 := p.l2[i := t]), i + 1)
  {
    hide BlockTable, TableDesc, OnceLive, Parts;
    var u := World(h, Wired(w.mem, p.l1, i, t));
    var q := p.(l2 := p.l2[i := t]);
    OneMoreLive(w.heap, p, i, h, t);
    OneMoreAbove(o, w, p, i, h, t);
    LevelsApart(w.heap, p);
    assert forall a :: IsPage(w, a) ==> IsPage(u, a);
    assert u.mem[t] == BlockTable(i);
  }

  lemma LevelsApart(h: HeapState, p: Proc)
    requires |p.l2| == 4 && p.l3 == [] && OnceLive(h, Parts(p))
    ensures forall j :: 0 <= j < 4 && p.l2[j] != 0 ==> p.l2[j] != p.l1 && p.l2[j] in h.live
    ensures p.l1 != 0 ==> p.l1 in h.live
  {
    var s := Parts(p);
    assert s[4] == p.l1;
    forall j | 0 <= j < 4 && p.l2[j] != 0 ensures p.l2[j] != p.l1 && p.l2[j] in h.live {
      assert s[j] == p.l2[j];
    }
  }

  lemma OneMoreLive(g: HeapState, p: Proc, i: nat, h: HeapState, t: nat)
    requires |p.l2| == 4 && p.l3 == [] && i < 4 && OnceLive(g, Parts(p)) && t !in g.live && t in h.live
    requires forall a :: a in g.live ==> a in h.live
    ensures OnceLive(h, Parts(p.(l2 := p.l2[i := t])))
  {
    var s, r := Parts(p), Parts(p.(l2 := p.l2[i := t]));
    assert r == s[i := t];
  }

  lemma {:induction false} OneMoreAbove(o: World, w: World, p: Proc, i: nat, h: HeapState, t: nat)
    requires Above(o, w, p) && |p.l2| == 4 && p.l3 == [] && i < 4 && p.l2[i] == 0 && 0 !in h.live && p.base in w.heap.live
    requires t !in w.heap.live && t in h.live && h.live == w.heap.live[t := h.live[t]]
    requires h.start == w.heap.start && h.end == w.heap.end && p.l1 in w.mem && |w.mem[p.l1]| == ENTRIES
    ensures Above(o, World(h, Wired(w.mem, p.l1, i, t)), p.(l2 := p.l2[i := t]))
  {
    hide BlockTable, TableDesc, Parts;
    var q := p.(l2 := p.l2[i := t]);
    var u := World(h, Wired(w.mem, p.l1, i, t));
    forall a ensures a in Parts(q) ==> a == t || a in Parts(p)
    {
      PartsIn(p, a);
      PartsIn(q, a);
    }
    forall a | a in Parts(p) && a != 0 ensures a in Parts(q) {
      PartsIn(p, a);
      PartsIn(q, a);
      if a in p.l2 {
        var k :| 0 <= k < 4 && p.l2[k] == a;
        assert q.l2[k] == a;
      }
    }
    PartsIn(q, t);
    assert q.l2[i] == t;
    assert p.l1 in Parts(p) by { PartsIn(p, p.l1); }
    assert forall a :: a in o.heap.live ==> a != p.l1;
    assert forall a :: a in o.mem && a in o.heap.live ==> a != t && a in u.mem && u.mem[a] == w.mem[a];
  }

  /** A fully built process is sound and maps everything. */
  lemma {:induction false} BuiltOk(o: World, w: World, p: Proc)
    requires Building(o, w, p, 4)
    ensures ProcOk(w, p) && Above(o, w, p) && p.l3 == []
    ensures forall n: nat :: n < PAGES ==> !Hidden(w.mem, p, n)
  {
    hide Whole, Kind, TableDesc, TableAddr;
    forall b: nat | b < BLOCKS ensures BlockEntry(w.mem, p, b) == Whole(b) && !Split(w.mem, p, b) {
      KindWhole(b);
      assert w.mem[p.l2[b / ENTRIES]] == BlockTable(b / ENTRIES);
      TableHasWhole(b);
    }
    BuiltOwns(o, w, p);
    hide BlockEntry, Owns, Above, OnceLive;
    forall n: nat | n < PAGES ensures !Hidden(w.mem, p, n) {
      NotSplitNotHidden(w.mem, p, n);
      assert !Split(w.mem, p, n / ENTRIES);
    }
  }

  lemma BuiltOwns(o: World, w: World, p: Proc)
    requires Building(o, w, p, 4)
    ensures Owns(w, p)
  {
    hide BlockTable, TableDesc, Above;
    var s := Parts(p);
    assert forall k :: 0 <= k < 4 ==> s[k] == p.l2[k];
    assert s[4] == p.l1 && s[5] == p.base;
    ZeroesNone(w, p);
  }

  lemma ZeroesNone(w: World, p: Proc)
    requires |p.l2| == 4 && p.l3 == [] && OnceLive(w.heap, Parts(p)) && p.base != 0 && IsPage(w, p.l1)
    requires forall j :: 0 <= j < 4 ==> IsPage(w, p.l2[j])
    ensures NoDup(Parts(p))
  {
    var s := Parts(p);
    assert forall k :: 0 <= k < |s| ==> s[k] != 0;
  }

  lemma TableHasWhole(b: nat)
    requires b < BLOCKS
    ensures BlockTable(b / ENTRIES)[b % ENTRIES] == Whole(b)
  {
    assert b / ENTRIES * ENTRIES * BLOCK + b % ENTRIES * BLOCK == b * BLOCK;
  }

  lemma BuildingReleases(o: World, w: World, p: Proc, i: nat)
    requires Building(o, w, p, i) && Good(w.heap)
    ensures var u := FreeProc(w, p);
      Good(u.heap) && u.heap.live == o.heap.live && u.heap.start == o.heap.start && u.heap.end == o.heap.end
    ensures Releasable(w.heap, Parts(p)) && FreeProc(w, p).mem == w.mem
  {
    hide HeapOk, FreeEach, Releasable, IsPage;
    ReleaseIs(w.heap, Parts(p));
  }

  /** Making a process either gives a sound one that maps all of memory and owns
      exactly what was newly allocated, or fails and leaves what is live as it
      was, however far it got. */
  lemma {:induction false} CreateProcKeeps(w: World)
    requires Good(w.heap)
    ensures var (u, r) := CreateProc(w);
      Good(u.heap) && u.heap.start == w.heap.start && u.heap.end == w.heap.end &&
      (forall a :: a in w.mem && a in w.heap.live ==> a in u.mem && u.mem[a] == w.mem[a]) &&
      (r.None? ==> u.heap.live == w.heap.live) &&
      (r.Some? ==> ProcOk(u, r.value) && Above(w, u, r.value) && forall n: nat :: n < PAGES ==> !Hidden(u.mem, r.value, n))
  {
    hide HeapOk, Alloc, KmallocPage, AddTables, FreeEach, Releasable, TablesOk, BlockTable, Hidden;
    Powers();
    AllocGood(w.heap, PROC_SIZE, 16);
    var (h, base) := Alloc(w.heap, PROC_SIZE, 16);
    if base != 0 {
      RootProcKeeps(w, h, base);
    }
  }

  lemma {:induction false} RootProcKeeps(w: World, h: HeapState, base: nat)
    requires Good(h) && base !in w.heap.live && base in h.live && h.live == w.heap.live[base := h.live[base]]
    requires base != 0 && h.start == w.heap.start && h.end == w.heap.end
    ensures var (u, r) := RootProc(World(h, w.mem), base);
      Good(u.heap) && u.heap.start == w.heap.start && u.heap.end == w.heap.end &&
      (forall a :: a in w.mem && a in w.heap.live ==> a in u.mem && u.mem[a] == w.mem[a]) &&
      (r.None? ==> u.heap.live == w.heap.live) &&
      (r.Some? ==> ProcOk(u, r.value) && Above(w, u, r.value) && forall n: nat :: n < PAGES ==> !Hidden(u.mem, r.value, n))
  {
    hide HeapOk, Alloc, KmallocPage, AddTables, FreeEach, Releasable, TablesOk, Owns, Hidden, BlockTable, TableDesc;
    PageFrom(h);
    ZeroNotLive(h);
    var (h1, l1) := KmallocPage(h);
    if l1 == 0 {
      ReleaseIs(h, Parts(Proc(base, 0, NO_TABLES, [])));
    } else {
      ZeroNotLive(h1);
      var x := World(h1, w.mem[l1 := Zeros()]);
      var p := Proc(base, l1, NO_TABLES, []);
      StartBuilding(w, h1, base, l1);
      hide Building, OnceLive;
      AddTablesKeeps(w, x, p, 0);
      var m := AddTables(x, p, 0);
      var k: nat :| k <= 4 && Building(w, m.w, m.p, k) && (m.ok <==> k == 4);
      if m.ok {
        BuiltOk(w, m.w, m.p);
      } else {
        BuildingReleases(w, m.w, m.p, k);
        BuildingAbove(w, m.w, m.p, k);
      }
    }
  }

  lemma BuildingAbove(o: World, w: World, p: Proc, i: nat)
    requires Building(o, w, p, i)
    ensures Above(o, w, p)
  {
  }

  lemma StartBuilding(w: World, h: HeapState, base: nat, l1: nat)
    requires base != 0 && l1 != 0 && base != l1 && base !in w.heap.live && l1 !in w.heap.live && base in h.live && l1 in h.live
    requires h.live == w.heap.live[base := h.live[base]][l1 := h.live[l1]] && 0 !in h.live
    requires h.start == w.heap.start && h.end == w.heap.end && l1 % PAGE == 0 && l1 < FOUR_GB
    ensures Building(w, World(h, w.mem[l1 := Zeros()]), Proc(base, l1, NO_TABLES, []), 0)
  {
    var s := Parts(Proc(base, l1, NO_TABLES, []));
    assert s == [0, 0, 0, 0, l1, base];
  }

  // ----- conservation -----

  datatype Range = Range(va: nat, size: nat)

  /** Whatever pages are gone through, the process stays sound and only gains
      tables of its own. */
  lemma {:induction false} UnmapFromGrows(w: World, p: Proc, n: nat, last: nat)
    requires ProcOk(w, p) && Good(w.heap)
    ensures var (u, q) := UnmapFrom(w, p, n, last); ProcOk(u, q) && Good(u.heap) && Grew(w, p, u, q)
    decreases last - n
  {
    hide ProcOk, Good, Grew, UnmapPage, Hidden, Split, CanSplit;
    if n >= last {
      GrewNothing(w, p);
    } else {
      UnmapFolds(w, p, n);
      UnmapPageKeeps(w, p, n % PAGES);
      var (x, r) := UnmapPage(w, p, n);
      UnmapFromGrows(x, r, n + 1, last);
      GrewTwice(w, p, x, r, UnmapFrom(x, r, n + 1, last).0, UnmapFrom(x, r, n + 1, last).1);
    }
  }

  /** Unmapping one range, of any size and anywhere. */
  lemma {:induction false} UnmapRangeGrows(w: World, p: Proc, va: nat, size: nat)
    requires ProcOk(w, p) && Good(w.heap)
    ensures var (u, q) := UnmapRange(w, p, va, size); ProcOk(u, q) && Good(u.heap) && Grew(w, p, u, q)
  {
    hide ProcOk, Good, Grew, UnmapFrom;
    UnmapFromGrows(w, p, va / PAGE, Wrap(va + size + (PAGE - 1)) / PAGE);
  }

  function UnmapAll(w: World, p: Proc, rs: seq<Range>): (World, Proc)
    requires ProcOk(w, p) && Good(w.heap)
    decreases |rs|
  {
    if rs == [] then (w, p)
    else
      UnmapRangeGrows(w, p, rs[0].va, rs[0].size);
      var (u, q) := UnmapRange(w, p, rs[0].va, rs[0].size);
      UnmapAll(u, q, rs[1..])
  }

  lemma {:induction false} UnmapAllKeeps(w: World, p: Proc, rs: seq<Range>)
    requires ProcOk(w, p) && Good(w.heap)
    ensures var (u, q) := UnmapAll(w, p, rs); ProcOk(u, q) && Good(u.heap) && Grew(w, p, u, q)
    decreases |rs|
  {
    hide ProcOk, Good, Grew, UnmapRange;
    if rs == [] {
      GrewNothing(w, p);
    } else {
      UnmapRangeGrows(w, p, rs[0].va, rs[0].size);
      var (u, q) := UnmapRange(w, p, rs[0].va, rs[0].size);
      UnmapAllKeeps(u, q, rs[1..]);
      GrewTwice(w, p, u, q, UnmapAll(u, q, rs[1..]).0, UnmapAll(u, q, rs[1..]).1);
    }
  }

  /** Making a process, unmapping any ranges from it and freeing it leaves the
      live blocks as they were, each table having been freed once. */
  lemma {:induction false} Conserved(w: World, rs: seq<Range>)
    requires Good(w.heap) && CreateProc(w).1.Some?
    ensures (CreateProcKeeps(w);
      var (x, r) := CreateProc(w);
      var (u, q) := UnmapAll(x, r.value, rs);
      Releasable(u.heap, Parts(q)) && FreeProc(u, q).heap.live == w.heap.live)
  {
    hide HeapOk, TablesOk, CreateProc, UnmapAll, FreeProc, Releasable, Hidden, IsPage;
    CreateProcKeeps(w);
    var (x, r) := CreateProc(w);
    UnmapAllKeeps(x, r.value, rs);
    var (u, q) := UnmapAll(x, r.value, rs);
    FreeProcKeeps(u, q);
    var z := FreeProc(u, q);
    forall a ensures a in z.heap.live <==> a in w.heap.live {
      PartsIn(r.value, a);
      PartsIn(q, a);
    }
  }
}
