/** What creating and ending tasks does to the whole state: who gets which slot
    and which memory, when it fails, and what is left then. */
module UserEffects {
  import opened Basics
  import opened Heap
  import opened Pages
  import opened Procs
  import opened ProcLife
  import opened Isolation

  /** Ending a task in use, other than 0, empties its slot and frees just what
      the slot owned; any other id changes nothing. */
  lemma {:induction false} KillEffect(s: Sys, id: nat)
    requires SysOk(s)
    ensures var t := Kill(s, id);
      if 0 < id < s.n && s.slots[id].used then
        t.slots == s.slots[id := EMPTY] && t.n == s.n && t.others == s.others && t.w.mem == s.w.mem &&
        (forall a :: a in t.w.heap.live <==> a in s.w.heap.live && !Owned(s.slots[id], a)) &&
        (forall a :: a in t.w.heap.live ==> t.w.heap.live[a] == s.w.heap.live[a])
      else t == s
  {
    hide HeapOk, FreeEach, SlotOk, Owned, Separate, Good, Belongings;
    if 0 < id < s.n && s.slots[id].used {
      CleanUpKeeps(s, id);
      BelongingsOnce(s.w, s.slots[id]) by { assert SlotOk(s.w, s.slots[id]); }
      ReleaseIs(s.w.heap, Belongings(s.slots[id]));
    }
  }

  /** `id` is the first free slot after 0, SLOTS when there is none. */
  ghost predicate FirstFree(s: Sys, id: nat) {
    |s.slots| == SLOTS && 0 < id <= SLOTS && (forall k :: 0 < k < id ==> s.slots[k].used) &&
    (id < SLOTS ==> !s.slots[id].used)
  }

  lemma {:induction false} FreeSlotIs(slots: seq<Slot>, i: nat, id: nat)
    requires |slots| == SLOTS && i <= id <= SLOTS && (forall k :: i <= k < id ==> slots[k].used)
    requires id < SLOTS ==> !slots[id].used
    ensures FreeSlot(slots, i) == id
    decreases id - i
  {
    if i < id {
      FreeSlotIs(slots, i + 1, id);
    }
  }

  /** A kernel task gets the first free slot and 4096 bytes of stack; without a
      slot nothing happens, and without memory the slot stays taken for nothing. */
  lemma SpawnEffect(s: Sys, id: nat)
    requires FirstFree(s, id)
    ensures var (h, stack) := Alloc(s.w.heap, 4096, 16);
      Spawn(s) ==
        if id == SLOTS then (s, SLOTS)
        else if stack == 0 then (s.(slots := s.slots[id := Slot(true, 0, 0, None)]), SLOTS)
        else (s.(w := World(h, s.w.mem), slots := s.slots[id := Slot(true, stack, 0, None)],
                 n := if s.n < id + 1 then id + 1 else s.n), id)
  {
    hide Alloc;
    FreeSlotIs(s.slots, 1, id);
  }

  /** A process can be made exactly when the heap has room for its record and
      five pages, one after the other. */
  lemma {:induction false} CreateProcIff(w: World)
    ensures var (h, base) := Alloc(w.heap, 176, 16);
      CreateProc(w).1.Some? <==> base != 0 && CanServe(h, 5)
  {
    hide Alloc, FreeProc, Wired, BlockTable, KmallocPage, TableDesc;
    var (h, base) := Alloc(w.heap, 176, 16);
    if base != 0 {
      var page := KmallocPage(h);
      if page.1 != 0 {
        AddTablesIff(World(page.0, w.mem[page.1 := Zeros()]), Proc(base, page.1, NO_TABLES, []), 0);
      }
    }
  }

  lemma {:induction false} AddTablesIff(w: World, p: Proc, i: nat)
    requires |p.l2| == 4 && i <= 4 && p.l1 in w.mem && |w.mem[p.l1]| == ENTRIES
    ensures AddTables(w, p, i).ok <==> CanServe(w.heap, 4 - i)
    decreases 4 - i
  {
    hide KmallocPage, BlockTable, TableDesc;
    if i < 4 {
      var page := KmallocPage(w.heap);
      if page.1 != 0 {
        AddTablesIff(World(page.0, Wired(w.mem, p.l1, i, page.1)), p.(l2 := p.l2[i := page.1]), i + 1);
      }
    }
  }

  /** Everything a user task needs can be had: 4096 bytes of user stack, a slot,
      4096 bytes of kernel stack, and a process, in this order. */
  ghost predicate CanCreate(s: Sys, free: nat) {
    var (h1, el1) := Alloc(s.w.heap, 4096, 4096);
    var (h2, stack) := Alloc(h1, 4096, 16);
    var (h3, base) := Alloc(h2, 176, 16);
    el1 != 0 && free < SLOTS && stack != 0 && base != 0 && CanServe(h3, 5)
  }

  /** The slots but number `id` hold the same tasks. */
  ghost predicate OthersSame(s: Sys, t: Sys, id: nat) {
    |s.slots| == SLOTS && |t.slots| == SLOTS &&
    forall i: nat :: i < SLOTS && i != id ==>
      t.slots[i].used == s.slots[i].used && t.slots[i].stack == s.slots[i].stack && t.slots[i].el1 == s.slots[i].el1 &&
      (t.slots[i].proc.Some? <==> s.slots[i].proc.Some?)
  }

  /** What is left when the set-up of `s` fails. */
  ghost predicate GivenBack(s: Sys, t: Sys, free: nat, left: Slot) {
    t.others == s.others && t.w.heap.live.Keys == s.w.heap.live.Keys && OthersSame(s, t, free) &&
    (free < SLOTS ==> t.slots[free] == left)
  }

  /** What is there when it succeeds. */
  ghost predicate SetUp(s: Sys, t: Sys, id: nat, stack: nat, el1: nat) {
    t.others == s.others && OthersSame(s, t, id) && id < SLOTS && t.n == (if s.n < id + 1 then id + 1 else s.n) &&
    t.slots[id].used && t.slots[id].stack == stack && t.slots[id].el1 == el1 && t.slots[id].proc.Some?
  }

  /** A user task is made exactly when everything it needs can be had.  It then
      has the first free slot, with the stacks allocated and a table of its own,
      and every other task keeps what it has.  Otherwise all that was taken has
      been given back; only a slot for which there was no kernel stack stays
      taken. */
  lemma {:induction false} UserCreateEffect(s: Sys, free: nat)
    requires SysOk(s) && FirstFree(s, free)
    ensures var (h1, el1) := Alloc(s.w.heap, 4096, 4096);
      var stack := Alloc(h1, 4096, 16).1;
      var (t, id) := UserCreate(s);
      SysOk(t) &&
      if CanCreate(s, free) then id == free && SetUp(s, t, id, stack, el1)
      else id == SLOTS && GivenBack(s, t, free, if el1 != 0 && stack == 0 then Slot(true, 0, 0, None) else EMPTY)
  {
    hide HeapOk, Alloc, SlotOk, Separate, Good, Barred, Prepare, BarFrom, CreateProc, CanServe;
    PrepareEffect(s, free);
    PrepareKeeps(s);
    var (d, id) := Prepare(s);
    if id < SLOTS {
      BarFromKeeps(d, id, 0);
      var t := BarFrom(d, id, 0);
      forall i: nat | i < SLOTS ensures t.slots[i].proc.Some? <==> d.slots[i].proc.Some? {
        TableIff(t, i);
        TableIff(d, i);
      }
    }
  }

  lemma TableIff(s: Sys, i: nat)
    requires SysOk(s) && i < SLOTS
    ensures s.slots[i].proc.Some? <==> s.slots[i].el1 != 0
  {
    hide HeapOk, ProcOk, Separate;
    assert SlotOk(s.w, s.slots[i]);
  }

  lemma UnusedSlot(s: Sys, i: nat)
    requires SysOk(s) && i < SLOTS && !s.slots[i].used
    ensures s.slots[i] == EMPTY
  {
    hide HeapOk, ProcOk, Separate;
    UnusedEmpty(s.w, s.slots[i]) by { assert SlotOk(s.w, s.slots[i]); }
  }

  /** The same before the tables are barred. */
  lemma {:induction false} PrepareEffect(s: Sys, free: nat)
    requires SysOk(s) && FirstFree(s, free)
    ensures var (h1, el1) := Alloc(s.w.heap, 4096, 4096);
      var stack := Alloc(h1, 4096, 16).1;
      var (t, id) := Prepare(s);
      if CanCreate(s, free) then id == free && SetUp(s, t, id, stack, el1)
      else id == SLOTS && GivenBack(s, t, free, if el1 != 0 && stack == 0 then Slot(true, 0, 0, None) else EMPTY)
  {
    hide HeapOk, Alloc, SlotOk, Separate, Good, CreateProc, WithSlot, CanServe, PowerOfTwo, Owned, Spawn, SetUp;
    Powers();
    TakeKeeps(s, STACK_SIZE, PAGE);
    if free < SLOTS {
      UnusedSlot(s, free);
    }
    var (a, el1) := Take(s, STACK_SIZE, PAGE);
    if el1 != 0 {
      OthersLive(s);
      SpawnKeeps(a);
      SpawnEffect(a, free);
      var (b, id) := Spawn(a);
      CreateProcIff(b.w);
      if id == SLOTS {
        NoSlot(s, a, b, free, el1);
      } else {
        SlotTaken(a, free);
        SlotThere(s, a, b, id, el1);
      }
    }
  }

  /** `a` is `s` with the block `el1` taken. */
  ghost predicate WithBlock(s: Sys, a: Sys, el1: nat) {
    SysOk(s) && SysOk(a) && a.slots == s.slots && a.n == s.n && a.others == s.others + {el1} && el1 !in s.others &&
    el1 != 0 && el1 !in s.w.heap.live && a.w.heap.live.Keys == s.w.heap.live.Keys + {el1}
  }

  lemma NoSlot(s: Sys, a: Sys, b: Sys, free: nat, el1: nat)
    requires WithBlock(s, a, el1) && SysOk(b) && b.w == a.w && b.others == a.others && free <= SLOTS
    requires b.slots == if free == SLOTS then s.slots else s.slots[free := Slot(true, 0, 0, None)]
    ensures SysOk(b) && el1 in b.others
    ensures var (t, r) := WithSlot((b, SLOTS), el1);
      r == SLOTS && GivenBack(s, t, free, Slot(true, 0, 0, None))
  {
    hide HeapOk, SlotOk, Separate, Good, Give;
    OthersLive(b);
    GiveKeeps(b, el1);
  }

  lemma SlotTaken(a: Sys, free: nat)
    requires SysOk(a) && FirstFree(a, free)
    ensures var (h, stack) := Alloc(a.w.heap, 4096, 16);
      stack != 0 ==> stack !in a.w.heap.live && h.live.Keys == a.w.heap.live.Keys + {stack}
  {
    hide HeapOk, SlotOk, Separate, Good, Alloc, PowerOfTwo;
    Powers();
    TakeKeeps(a, STACK_SIZE, 16);
  }

  lemma {:induction false} SlotThere(s: Sys, a: Sys, b: Sys, id: nat, el1: nat)
    requires WithBlock(s, a, el1) && SysOk(b) && id < SLOTS && !s.slots[id].used && 0 < id
    requires var (h, stack) := Alloc(a.w.heap, 4096, 16);
      stack != 0 && stack !in a.w.heap.live && b.w == World(h, a.w.mem) && h.live.Keys == a.w.heap.live.Keys + {stack} &&
      b == a.(w := b.w, slots := s.slots[id := Slot(true, stack, 0, None)], n := if s.n < id + 1 then id + 1 else s.n)
    ensures el1 in b.others
    ensures var stack := Alloc(a.w.heap, 4096, 16).1;
      var (t, r) := WithSlot((b, id), el1);
      if CreateProc(b.w).1.Some? then r == id && SetUp(s, t, id, stack, el1)
      else r == SLOTS && GivenBack(s, t, id, EMPTY)
  {
    hide HeapOk, SlotOk, Separate, Good, Give, CreateProc, Alloc, Kill, Owned;
    OthersLive(b);
    TabledKeeps(b);
    var (c, r) := Tabled(b);
    OthersLive(c);
    if r.None? {
      var stack := b.slots[id].stack;
      GiveKeeps(c, el1);
      var d := Give(c, el1);
      CreateProcKeeps(b.w) by { SysGood(b); }
      KillEffect(d, id);
      PlainSlotOwns(stack);
      assert d.slots[id] == Slot(true, stack, 0, None);
      var t := Kill(d, id);
      assert t.w.heap.live.Keys == s.w.heap.live.Keys;
      assert t.others == s.others;
    } else {
      assert el1 in b.w.heap.live;
      assert forall x :: x in PartSet(r.value) ==> x !in s.others;
      assert c.others - {el1} - PartSet(r.value) == s.others;
    }
  }
}
