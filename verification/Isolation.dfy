/** User tasks: each has a kernel stack, a user stack and a table of its own, in
    which the user stacks of all others are made absent. */
module Isolation {
  import opened Basics
  import opened Heap
  import opened Pages
  import opened Procs
  import opened ProcLife

  const SLOTS := 16
  const STACK_SIZE: nat := 4096

  /** A task slot; addresses are 0 when there is nothing. */
  datatype Slot = Slot(used: bool, stack: nat, el1: nat, proc: Option<Proc>)

  const EMPTY := Slot(false, 0, 0, None)

  /** `others` are the live blocks of the rest of the kernel. */
  datatype Sys = Sys(w: World, slots: seq<Slot>, n: nat, others: set<nat>)

  // ----- the invariant -----

  predicate Owned(t: Slot, a: nat) {
    a != 0 && (a == t.stack || a == t.el1 || (t.proc.Some? && a in Parts(t.proc.value)))
  }

  predicate IsUser(t: Slot) {
    t.el1 != 0
  }

  /** One slot by itself. */
  ghost predicate SlotOk(w: World, t: Slot) {
    (forall a :: Owned(t, a) ==> a in w.heap.live) &&
    (t.proc.Some? <==> IsUser(t)) && (!t.used ==> t == EMPTY) && (t.stack != 0 ==> t.stack != t.el1) &&
    (IsUser(t) ==> t.el1 % PAGE == 0 && t.el1 < FOUR_GB) &&
    (t.proc.Some? ==> (ProcOk(w, t.proc.value) && t.el1 !in Parts(t.proc.value) && t.stack !in Parts(t.proc.value) &&
      !Hidden(w.mem, t.proc.value, t.el1 / PAGE)))
  }

  /** Slots own different blocks, and the live blocks are theirs and the rest
      of the kernel's. */
  ghost predicate Separate(s: Sys) {
    (forall i, j, a :: 0 <= i < |s.slots| && 0 <= j < |s.slots| && Owned(s.slots[i], a) && Owned(s.slots[j], a) ==> i == j) &&
    (forall a :: a in s.others ==> a in s.w.heap.live) &&
    (forall i, a :: 0 <= i < |s.slots| && Owned(s.slots[i], a) ==> a !in s.others) &&
    (forall a :: a in s.w.heap.live && a !in s.others ==> exists i :: 0 <= i < |s.slots| && Owned(s.slots[i], a))
  }

  ghost predicate SysOk(s: Sys) {
    Good(s.w.heap) && |s.slots| == SLOTS && 0 < s.n <= SLOTS &&
    (forall i :: 0 <= i < SLOTS ==> SlotOk(s.w, s.slots[i])) &&
    (forall i :: s.n <= i < SLOTS ==> !IsUser(s.slots[i])) &&
    Separate(s)
  }

  /** Task `i` cannot reach the stack of task `j`. */
  predicate Barred(s: Sys, i: nat, j: nat)
    requires i < |s.slots| && j < |s.slots|
  {
    s.slots[i].proc.Some? && |s.slots[i].proc.value.l2| == 4 && s.slots[j].el1 / PAGE < PAGES &&
    Hidden(s.w.mem, s.slots[i].proc.value, s.slots[j].el1 / PAGE)
  }

  /** No user task can reach the stack of another. */
  ghost predicate Isolated(s: Sys) {
    forall i: nat, j: nat :: (i < |s.slots| && j < |s.slots| && i != j && IsUser(s.slots[i]) && IsUser(s.slots[j])) ==>
      Barred(s, i, j)
  }

  // ----- the rest of the kernel -----

  function Take(s: Sys, size: nat, align: nat): (Sys, nat) {
    var block := Alloc(s.w.heap, size, align);
    if block.1 == 0 then (s, 0)
    else (s.(w := World(block.0, s.w.mem), others := s.others + {block.1}), block.1)
  }

  function Give(s: Sys, p: nat): Sys
    requires p in s.w.heap.live
  {
    s.(w := World(Free(s.w.heap, p), s.w.mem), others := s.others - {p})
  }

  /** A change of heap that keeps every slot's blocks live keeps the slots. */
  lemma SlotKept(w: World, u: World, t: Slot)
    requires SlotOk(w, t) && u.mem == w.mem
    requires forall a :: Owned(t, a) ==> a in u.heap.live
    ensures SlotOk(u, t)
  {
    hide TablesOk, NoDup;
    if t.proc.Some? {
      var p := t.proc.value;
      forall a | a in Parts(p) ensures a in u.heap.live {
        OwnedLive(w, p);
        assert Owned(t, a);
      }
      forall a | a in p.l3 || a in p.l2 || a == p.l1 || a == p.base ensures a in Parts(p) {
        PartsIn(p, a);
      }
      assert Owns(u, p);
    }
  }

  lemma TakeKeeps(s: Sys, size: nat, align: nat)
    requires SysOk(s) && 0 < size <= FOUR_GB && PowerOfTwo(align) && align <= PAGE
    ensures var (t, p) := Take(s, size, align);
      SysOk(t) && t.slots == s.slots && t.n == s.n && t.w.mem == s.w.mem && (p == 0 ==> t == s) &&
      (p != 0 ==> (t.others == s.others + {p} && p !in s.w.heap.live && p in t.w.heap.live &&
        t.w.heap.live.Keys == s.w.heap.live.Keys + {p}))
  {
    hide HeapOk, Alloc, SlotOk, Owned, PowerOfTwo;
    AllocGood(s.w.heap, size, align);
    var (t, p) := Take(s, size, align);
    forall i | 0 <= i < SLOTS ensures SlotOk(t.w, t.slots[i]) {
      OwnedIsLive(s.w, s.slots[i]);
      SlotKept(s.w, t.w, s.slots[i]);
    }
    assert Separate(t) by {
      forall i | 0 <= i < SLOTS ensures forall a :: Owned(s.slots[i], a) ==> a in s.w.heap.live {
        OwnedIsLive(s.w, s.slots[i]);
      }
    }
  }

  lemma OwnedIsLive(w: World, t: Slot)
    requires SlotOk(w, t)
    ensures forall a :: Owned(t, a) ==> a in w.heap.live
  {
  }

  lemma GiveKeeps(s: Sys, p: nat)
    requires SysOk(s) && p in s.others && p in s.w.heap.live
    ensures var t := Give(s, p);
      SysOk(t) && t.slots == s.slots && t.n == s.n && t.w.mem == s.w.mem &&
      t.w.heap.live.Keys == s.w.heap.live.Keys - {p} && t.others == s.others - {p}
  {
    hide HeapOk, Free, SlotOk, Owned;
    FreeKeeps(s.w.heap, p);
    var t := Give(s, p);
    forall i | 0 <= i < SLOTS ensures SlotOk(t.w, t.slots[i]) {
      OwnedIsLive(s.w, s.slots[i]);
      SlotKept(s.w, t.w, s.slots[i]);
    }
  }

  // ----- ending a task -----

  /** `task_cleanup`: kernel stack, user stack, then the table. */
  function Belongings(t: Slot): seq<nat> {
    [t.stack, t.el1] + if t.proc.Some? then Parts(t.proc.value) else []
  }

  function CleanUp(s: Sys, id: nat): Sys
    requires id < |s.slots|
  {
    s.(w := World(FreeEach(s.w.heap, Belongings(s.slots[id])), s.w.mem), slots := s.slots[id := EMPTY])
  }

  /** `task_kill` and `task_exit`; killing task 0 or an empty slot does nothing. */
  function Kill(s: Sys, id: nat): Sys {
    if id == 0 || id >= s.n || id >= |s.slots| || !s.slots[id].used then s else CleanUp(s, id)
  }

  lemma BelongingsOwned(t: Slot, a: nat)
    ensures a != 0 ==> (a in Belongings(t) <==> Owned(t, a))
  {
    var b := Belongings(t);
    assert b[0] == t.stack && b[1] == t.el1;
    if t.proc.Some? {
      assert b[2..] == Parts(t.proc.value);
    }
  }

  lemma BelongingsOnce(w: World, t: Slot)
    requires SlotOk(w, t)
    ensures OnceLive(w.heap, Belongings(t))
  {
    hide ProcOk;
    var b := Belongings(t);
    if t.proc.Some? {
      var p := t.proc.value;
      assert Owns(w, p) by { OkOwns(w, p); }
      assert forall k :: 2 <= k < |b| ==> b[k] == Parts(p)[k - 2];
    }
    forall k | 0 <= k < |b| && b[k] != 0 ensures b[k] in w.heap.live {
      BelongingsOwned(t, b[k]);
    }
  }

  /** Ending a task frees exactly what it owned, each block once, and leaves
      every other task and its table as they were. */
  lemma {:induction false} CleanUpKeeps(s: Sys, id: nat)
    requires SysOk(s) && id < SLOTS
    ensures var t := CleanUp(s, id);
      SysOk(t) && t.w.mem == s.w.mem && Releasable(s.w.heap, Belongings(s.slots[id])) &&
      (forall a :: a in t.w.heap.live <==> a in s.w.heap.live && !Owned(s.slots[id], a))
  {
    hide HeapOk, FreeEach, Releasable, SlotOk, Owned, Belongings;
    var gone := s.slots[id];
    BelongingsOnce(s.w, gone);
    ReleaseIs(s.w.heap, Belongings(gone));
    var t := CleanUp(s, id);
    ZeroNotLive(s.w.heap);
    forall a ensures a in t.w.heap.live <==> a in s.w.heap.live && !Owned(gone, a) {
      BelongingsOwned(gone, a);
    }
    assert (forall a :: !Owned(EMPTY, a)) && SlotOk(t.w, EMPTY) && !IsUser(EMPTY) by { EmptyOk(t.w); }
    forall i | 0 <= i < SLOTS ensures SlotOk(t.w, t.slots[i]) {
      if i != id {
        OwnedIsLive(s.w, s.slots[i]);
        SlotKept(s.w, t.w, s.slots[i]);
      }
    }
    forall a | a in t.w.heap.live && a !in t.others ensures exists i :: 0 <= i < |t.slots| && Owned(t.slots[i], a) {
      var i :| 0 <= i < |s.slots| && Owned(s.slots[i], a);
      assert t.slots[i] == s.slots[i];
    }
  }

  lemma EmptyOk(w: World)
    ensures SlotOk(w, EMPTY) && (forall a :: !Owned(EMPTY, a)) && !IsUser(EMPTY)
  {
  }

  lemma KillIsolated(s: Sys, id: nat)
    requires SysOk(s) && Isolated(s)
    ensures SysOk(Kill(s, id)) && Isolated(Kill(s, id))
  {
    hide HeapOk, FreeEach, SlotOk, Owned, Hidden, Separate, Good;
    if id < SLOTS {
      CleanUpKeeps(s, id);
      EmptyOk(s.w);
    }
  }

  // ----- starting a task -----

  function FreeSlot(slots: seq<Slot>, i: nat): (id: nat)
    requires |slots| == SLOTS && i <= SLOTS
    ensures i <= id <= SLOTS && (id < SLOTS ==> !slots[id].used)
    decreases SLOTS - i
  {
    if i == SLOTS || !slots[i].used then i else FreeSlot(slots, i + 1)
  }

  /** `task_create_named`: the slot, or SLOTS when there is none or no memory
      for the kernel stack; in the last case the slot stays taken. */
  function Spawn(s: Sys): (Sys, nat)
    requires |s.slots| == SLOTS
  {
    var id := FreeSlot(s.slots, 1);
    if id == SLOTS then (s, SLOTS)
    else
      var stack := Take(s, STACK_SIZE, 16);
      if stack.1 == 0 then (s.(slots := s.slots[id := Slot(true, 0, 0, None)]), SLOTS)
      else
        (stack.0.(slots := s.slots[id := Slot(true, stack.1, 0, None)], others := s.others,
                  n := if id >= s.n then id + 1 else s.n), id)
  }

  lemma PlainSlotOk(w: World, a: nat)
    requires a == 0 || a in w.heap.live
    ensures SlotOk(w, Slot(true, a, 0, None)) && !IsUser(Slot(true, a, 0, None))
    ensures forall x :: Owned(Slot(true, a, 0, None), x) <==> x == a && x != 0
  {
  }

  lemma {:induction false} SpawnKeeps(s: Sys)
    requires SysOk(s)
    ensures var (t, id) := Spawn(s);
      SysOk(t) && t.w.mem == s.w.mem && t.others == s.others && id <= SLOTS &&
      (forall i :: 0 <= i < SLOTS ==> t.slots[i] == s.slots[i] || (!IsUser(t.slots[i]) && !IsUser(s.slots[i]))) &&
      (id < SLOTS ==> 0 < id < t.n && t.slots[id].used && t.slots[id].el1 == 0)
  {
    hide HeapOk, Alloc, SlotOk, Owned, PowerOfTwo, Separate, Take;
    Powers();
    TakeKeeps(s, STACK_SIZE, 16);
    var id := FreeSlot(s.slots, 1);
    if id < SLOTS {
      assert s.slots[id] == EMPTY by { UnusedEmpty(s.w, s.slots[id]); }
      var (u, stack) := Take(s, STACK_SIZE, 16);
      PlainSlotOk(u.w, stack);
      EmptyOk(s.w);
      PlacedSeparate(s, u, id, stack, Spawn(s).0.n);
    }
  }

  lemma UnusedEmpty(w: World, t: Slot)
    requires SlotOk(w, t)
    ensures !t.used ==> t == EMPTY
  {
  }

  /** Handing a block just taken to an empty slot. */
  lemma PlacedSeparate(s: Sys, u: Sys, id: nat, stack: nat, n: nat)
    requires Separate(s) && Separate(u) && u.slots == s.slots && |s.slots| == SLOTS && id < SLOTS && s.slots[id] == EMPTY
    requires stack == 0 ==> u == s
    requires stack != 0 ==> u.others == s.others + {stack} && stack !in s.w.heap.live
    ensures Separate(u.(slots := s.slots[id := Slot(true, stack, 0, None)], others := s.others, n := n))
  {
    var t := u.(slots := s.slots[id := Slot(true, stack, 0, None)], others := s.others, n := n);
    PlainSlotOwns(stack);
    hide Owned;
    forall a | a in t.w.heap.live && a !in t.others ensures exists i :: 0 <= i < |t.slots| && Owned(t.slots[i], a) {
      if a == stack && stack != 0 {
        assert Owned(t.slots[id], a);
      } else {
        var i :| 0 <= i < |s.slots| && Owned(s.slots[i], a);
        assert t.slots[i] == s.slots[i];
      }
    }
  }

  lemma PlainSlotOwns(a: nat)
    ensures forall x :: Owned(Slot(true, a, 0, None), x) <==> x == a && x != 0
    ensures forall x :: !Owned(EMPTY, x)
  {
  }

  function PartSet(p: Proc): set<nat> {
    set a | a in Parts(p)
  }

  /** A new table, held by the kernel until the task is complete. */
  function Tabled(s: Sys): (Sys, Option<Proc>) {
    var made := CreateProc(s.w);
    (s.(w := made.0, others := s.others + (if made.1.Some? then PartSet(made.1.value) else {})), made.1)
  }

  lemma {:induction false} TabledKeeps(s: Sys)
    requires SysOk(s)
    ensures var (t, r) := Tabled(s);
      SysOk(t) && t.slots == s.slots && t.n == s.n && s.others <= t.others &&
      (forall i :: 0 <= i < SLOTS && s.slots[i].proc.Some? ==> SameHidden(s.w, t.w, s.slots[i].proc.value)) &&
      (r.None? ==> t.others == s.others) &&
      (r.Some? ==> (ProcOk(t.w, r.value) && t.others == s.others + PartSet(r.value) &&
        (forall a :: a in Parts(r.value) ==> a !in s.w.heap.live) &&
        (forall n: nat :: n < PAGES ==> !Hidden(t.w.mem, r.value, n))))
  {
    hide HeapOk, CreateProc, SlotOk, Owned, ProcOk, Hidden;
    CreateProcKeeps(s.w);
    var (t, r) := Tabled(s);
    assert forall a :: a in s.w.heap.live ==> a in t.w.heap.live;
    forall i | 0 <= i < SLOTS
      ensures SlotOk(t.w, t.slots[i]) && (s.slots[i].proc.Some? ==> SameHidden(s.w, t.w, s.slots[i].proc.value))
    {
      SlotMoved(s.w, t.w, s.slots[i]);
    }
    assert Separate(t) by {
      forall i | 0 <= i < SLOTS ensures forall a :: Owned(s.slots[i], a) ==> a in s.w.heap.live {
        OwnedIsLive(s.w, s.slots[i]);
      }
      if r.Some? {
        OwnedLiveSet(t.w, r.value);
      }
    }
  }

  lemma OwnedLiveSet(w: World, p: Proc)
    requires ProcOk(w, p)
    ensures forall a :: a in PartSet(p) ==> a in w.heap.live
  {
    OwnedLive(w, p);
  }

  ghost predicate SameHidden(w: World, u: World, p: Proc) {
    |p.l2| == 4 && forall n: nat :: n < PAGES ==> Hidden(u.mem, p, n) == Hidden(w.mem, p, n)
  }

  /** A slot whose blocks stay live and whose memory stays the same is kept. */
  lemma {:induction false} SlotMoved(w: World, u: World, t: Slot)
    requires SlotOk(w, t)
    requires forall a :: a in w.heap.live ==> a in u.heap.live
    requires forall a :: a in w.mem && a in w.heap.live ==> a in u.mem && u.mem[a] == w.mem[a]
    ensures SlotOk(u, t) && (t.proc.Some? ==> SameHidden(w, u, t.proc.value))
  {
    hide NoDup, TablesOk;
    if t.proc.Some? {
      var p := t.proc.value;
      OkOwns(w, p);
      OwnedLive(w, p);
      forall a | a in p.l3 || a in p.l2 || a == p.l1 ensures a in w.mem && a in u.mem && u.mem[a] == w.mem[a] {
        PartsIn(p, a);
        assert IsPage(w, a);
      }
      assert Owns(u, p) by {
        assert forall a :: IsPage(w, a) && a in u.mem && u.mem[a] == w.mem[a] ==> IsPage(u, a);
      }
      SameTables(w.mem, u.mem, p);
    }
  }

  function Commit(s: Sys, id: nat, el1: nat, p: Proc): Sys
    requires id < |s.slots|
  {
    s.(slots := s.slots[id := s.slots[id].(el1 := el1, proc := Some(p))], others := s.others - {el1} - PartSet(p))
  }

  lemma {:induction false} CommitKeeps(s: Sys, id: nat, el1: nat, p: Proc)
    requires SysOk(s) && id < s.n && s.slots[id].used && s.slots[id].el1 == 0
    requires el1 in s.others && el1 % PAGE == 0 && 0 < el1 < FOUR_GB && el1 !in Parts(p)
    requires ProcOk(s.w, p) && PartSet(p) <= s.others && forall n: nat :: n < PAGES ==> !Hidden(s.w.mem, p, n)
    ensures SysOk(Commit(s, id, el1, p))
  {
    hide HeapOk, TablesOk, NoDup, Hidden, Parts, Owns;
    var t := Commit(s, id, el1, p);
    var oldSlot, slot := s.slots[id], t.slots[id];
    assert forall a :: a in Parts(p) ==> a in s.others && a != 0 by {
      OkOwns(s.w, p);
      OwnedLive(s.w, p);
      assert forall a :: a in Parts(p) ==> a in PartSet(p);
    }
    assert oldSlot.stack != 0 ==> Owned(oldSlot, oldSlot.stack);
    assert forall a :: Owned(slot, a) <==> Owned(oldSlot, a) || a == el1 || a in Parts(p);
    if oldSlot.stack == 0 {
      ZeroNotLive(s.w.heap);
    }
    assert SlotOk(s.w, oldSlot);
    assert SlotOk(t.w, slot);
    assert forall a :: a in s.others && a !in t.others ==> a == el1 || a in Parts(p);
    hide SlotOk, Owned;
    CommitSeparate(s, t, id);
  }

  /** One slot takes blocks over from the rest of the kernel. */
  lemma {:induction false} CommitSeparate(s: Sys, t: Sys, id: nat)
    requires Separate(s) && id < |s.slots| == |t.slots| && t.w == s.w && t.others <= s.others
    requires forall i :: 0 <= i < |s.slots| && i != id ==> t.slots[i] == s.slots[i]
    requires forall a :: Owned(t.slots[id], a) <==> Owned(s.slots[id], a) || (a in s.others && a !in t.others)
    ensures Separate(t)
  {
    hide Owned;
    forall a | a in t.w.heap.live && a !in t.others ensures exists i :: 0 <= i < |t.slots| && Owned(t.slots[i], a) {
      if a in s.others {
        assert Owned(t.slots[id], a);
      } else {
        var i :| 0 <= i < |s.slots| && Owned(s.slots[i], a);
        assert Owned(t.slots[i], a);
      }
    }
  }

  // ----- barring one stack from one table -----

  /** The table of task `k` loses the page of the stack at `va`. */
  function Bar(s: Sys, k: nat, va: nat): Sys
    requires k < |s.slots| && s.slots[k].proc.Some? && ProcOk(s.w, s.slots[k].proc.value) && Good(s.w.heap)
  {
    var r := UnmapRange(s.w, s.slots[k].proc.value, va, STACK_SIZE);
    s.(w := r.0, slots := s.slots[k := s.slots[k].(proc := Some(r.1))])
  }

  /** The block of page `n` is split in task `k`'s table, or can be. */
  predicate Could(s: Sys, k: nat, n: nat)
    requires k < |s.slots|
  {
    s.slots[k].proc.Some? && |s.slots[k].proc.value.l2| == 4 && n < PAGES &&
    (Split(s.w.mem, s.slots[k].proc.value, n / ENTRIES) || CanSplit(s.w.heap, s.slots[k].proc.value))
  }

  lemma OnePage(w: World, p: Proc, va: nat)
    requires ProcOk(w, p) && Good(w.heap) && va % PAGE == 0 && va < FOUR_GB
    ensures va / PAGE < PAGES && UnmapRange(w, p, va, STACK_SIZE) == UnmapPage(w, p, va / PAGE)
  {
    hide ProcOk, Good, UnmapPage;
    var n := va / PAGE;
    assert Wrap(va + STACK_SIZE + (PAGE - 1)) / PAGE == n + 1;
    UnmapPageKeeps(w, p, n);
    assert n % PAGES == n;
    var (u, q) := UnmapPage(w, p, n);
    assert UnmapFrom(u, q, n + 1, n + 1) == (u, q);
  }

  ghost predicate Users(s: Sys, i: nat, j: nat) {
    i < |s.slots| && j < |s.slots| && i != j && IsUser(s.slots[i]) && IsUser(s.slots[j])
  }

  /** `t` differs from `s` in the table of task `k` only. */
  ghost predicate OnlyTable(s: Sys, t: Sys, k: nat) {
    |t.slots| == |s.slots| && k < |s.slots| && t.n == s.n && t.others == s.others && t.slots[k].proc.Some? &&
    t.slots[k] == s.slots[k].(proc := t.slots[k].proc) &&
    (forall i :: 0 <= i < |s.slots| && i != k ==> t.slots[i] == s.slots[i])
  }

  /** Barring keeps the whole invariant; among all pairs of tasks only this one
      changes, and it is barred afterwards exactly when the table could be
      changed. */
  lemma {:induction false} BarKeeps(s: Sys, k: nat, j: nat)
    requires SysOk(s) && Users(s, k, j)
    ensures k < |s.slots| && j < |s.slots| && s.slots[k].proc.Some? && ProcOk(s.w, s.slots[k].proc.value) && Good(s.w.heap)
    ensures var t := Bar(s, k, s.slots[j].el1);
      SysOk(t) && OnlyTable(s, t, k) &&
      (forall x: nat, y: nat :: (Users(s, x, y) && (x != k || y != j)) ==> (Barred(t, x, y) <==> Barred(s, x, y))) &&
      (Barred(t, k, j) <==> Could(s, k, s.slots[j].el1 / PAGE))
  {
    hide HeapOk, TablesOk, Owns, Separate, Hidden, UnmapRange, UnmapPage, CanSplit, Split, Owned, Grew;
    assert SlotOk(s.w, s.slots[k]) && SlotOk(s.w, s.slots[j]);
    var va := s.slots[j].el1;
    var n := va / PAGE;
    var p := s.slots[k].proc.value;
    OnePage(s.w, p, va);
    UnmapPageKeeps(s.w, p, n);
    var t := Bar(s, k, va);
    var q := t.slots[k].proc.value;
    FourTables(s.w, p);
    FourTables(t.w, q);
    DistinctStacks(s, k, j);
    BarredSlot(s, k, t.w, q);
    forall i: nat | i < SLOTS && i != k
      ensures SlotOk(t.w, t.slots[i]) && (t.slots[i].proc.Some? ==> SameHidden(s.w, t.w, t.slots[i].proc.value))
    {
      OtherSlot(s, k, t.w, q, i);
    }
    BarSeparate(s, k, t);
    assert SysOk(t);
    forall x: nat, y: nat | Users(s, x, y) && (x != k || y != j)
      ensures Barred(t, x, y) <==> Barred(s, x, y)
    {
      assert SlotOk(s.w, s.slots[x]) && SlotOk(s.w, s.slots[y]);
      if x == k {
        DistinctStacks(s, y, j);
      }
    }
    SplitIfHidden(s.w.mem, p, n);
  }

  lemma FourTables(w: World, p: Proc)
    requires ProcOk(w, p)
    ensures |p.l2| == 4
  {
  }

  lemma SplitIfHidden(mem: Memory, p: Proc, n: nat)
    requires |p.l2| == 4 && n < PAGES
    ensures Hidden(mem, p, n) ==> Split(mem, p, n / ENTRIES)
  {
  }

  /** Two tasks' stacks are different pages. */
  lemma DistinctStacks(s: Sys, i: nat, j: nat)
    requires SysOk(s) && Users(s, i, j)
    ensures s.slots[i].el1 / PAGE != s.slots[j].el1 / PAGE && s.slots[i].el1 != s.slots[j].el1
  {
    hide HeapOk, ProcOk, Hidden;
    assert SlotOk(s.w, s.slots[i]) && SlotOk(s.w, s.slots[j]);
    assert Owned(s.slots[i], s.slots[i].el1) && Owned(s.slots[j], s.slots[j].el1);
  }

  lemma {:induction false} BarredSlot(s: Sys, k: nat, u: World, q: Proc)
    requires k < |s.slots| && SlotOk(s.w, s.slots[k]) && s.slots[k].proc.Some? && ProcOk(u, q)
    requires Grew(s.w, s.slots[k].proc.value, u, q)
    requires !Hidden(u.mem, q, s.slots[k].el1 / PAGE)
    ensures SlotOk(u, s.slots[k].(proc := Some(q)))
  {
    hide TablesOk, NoDup, Hidden, Owns, Parts;
    var t := s.slots[k];
    var p := t.proc.value;
    OkOwns(u, q);
    OwnedLive(u, q);
    assert Owned(t, t.el1);
    forall a ensures a in Parts(q) ==> a in Parts(p) || a !in s.w.heap.live {
      PartsIn(p, a);
      PartsIn(q, a);
    }
    assert t.stack != 0 ==> Owned(t, t.stack);
    if t.stack == 0 {
      assert 0 !in Parts(q);
    }
  }

  lemma {:induction false} OtherSlot(s: Sys, k: nat, u: World, q: Proc, i: nat)
    requires SysOk(s) && k < SLOTS && i < SLOTS && i != k && s.slots[k].proc.Some?
    requires Grew(s.w, s.slots[k].proc.value, u, q)
    ensures SlotOk(u, s.slots[i]) && (s.slots[i].proc.Some? ==> SameHidden(s.w, u, s.slots[i].proc.value))
    ensures s.slots[i].proc.Some? && |s.slots[i].proc.value.l2| == 4 ==>
      forall c: nat :: c < BLOCKS ==> (Split(u.mem, s.slots[i].proc.value, c) <==> Split(s.w.mem, s.slots[i].proc.value, c))
  {
    hide HeapOk, TablesOk, NoDup, Hidden, Parts, Split;
    assert SlotOk(s.w, s.slots[i]) && SlotOk(s.w, s.slots[k]);
    var p := s.slots[k].proc.value;
    if s.slots[i].proc.Some? {
      var o := s.slots[i].proc.value;
      OkOwns(s.w, o);
      OwnedLive(s.w, o);
      forall a | a in Parts(o) ensures a !in Parts(p) {
        assert Owned(s.slots[i], a);
        assert a in Parts(p) ==> Owned(s.slots[k], a);
      }
      OthersKept(s.w, p, u, q, o);
    }
  }

  /** What a slot owns when its table has grown. */
  lemma GrownSlot(s: Sys, k: nat, t: Sys)
    requires OnlyTable(s, t, k) && s.slots[k].proc.Some? && ProcOk(t.w, t.slots[k].proc.value)
    requires Grew(s.w, s.slots[k].proc.value, t.w, t.slots[k].proc.value)
    ensures forall a :: Owned(t.slots[k], a) ==> Owned(s.slots[k], a) || a !in s.w.heap.live
    ensures forall a :: Owned(s.slots[k], a) ==> Owned(t.slots[k], a)
    ensures forall a :: a in t.w.heap.live && a !in s.w.heap.live ==> Owned(t.slots[k], a)
    ensures forall a :: a in s.w.heap.live ==> a in t.w.heap.live
  {
    hide TablesOk, Owns, Parts;
    var p, q := s.slots[k].proc.value, t.slots[k].proc.value;
    OkOwns(t.w, q);
    OwnedLive(t.w, q);
    forall a
      ensures Owned(t.slots[k], a) ==> Owned(s.slots[k], a) || a !in s.w.heap.live
      ensures Owned(s.slots[k], a) ==> Owned(t.slots[k], a)
      ensures a in t.w.heap.live && a !in s.w.heap.live ==> Owned(t.slots[k], a)
    {
      PartsIn(p, a);
      PartsIn(q, a);
    }
  }

  lemma {:induction false} BarSeparate(s: Sys, k: nat, t: Sys)
    requires SysOk(s) && OnlyTable(s, t, k) && s.slots[k].proc.Some? && ProcOk(t.w, t.slots[k].proc.value)
    requires Grew(s.w, s.slots[k].proc.value, t.w, t.slots[k].proc.value)
    ensures Separate(t)
  {
    hide HeapOk, TablesOk, Hidden, Owns, Owned, SlotOk, Parts, ProcOk, Grew;
    GrownSlot(s, k, t);
    forall i | 0 <= i < SLOTS ensures forall a :: Owned(s.slots[i], a) ==> a in s.w.heap.live {
      OwnedIsLive(s.w, s.slots[i]);
    }
    forall a | a in t.w.heap.live && a !in t.others ensures exists i :: 0 <= i < |t.slots| && Owned(t.slots[i], a) {
      if a in s.w.heap.live {
        var i :| 0 <= i < |s.slots| && Owned(s.slots[i], a);
        assert Owned(t.slots[i], a);
      } else {
        assert Owned(t.slots[k], a);
      }
    }
  }

  // ----- barring all pairs with a new task -----

  /** For every other user task from slot `i` on: its stack goes from the table
      of `id`, and the stack of `id` from its table. */
  function BarFrom(s: Sys, id: nat, i: nat): Sys
    requires SysOk(s) && id < SLOTS && IsUser(s.slots[id])
    decreases s.n - i
  {
    if i >= s.n then s
    else if i == id || !IsUser(s.slots[i]) then BarFrom(s, id, i + 1)
    else
      BarKeeps(s, id, i);
      var a := Bar(s, id, s.slots[i].el1);
      BarKeeps(a, i, id);
      BarFrom(Bar(a, i, a.slots[id].el1), id, i + 1)
  }

  /** At each turn of the loop the two tables can be changed. */
  ghost predicate CouldFrom(s: Sys, id: nat, i: nat)
    requires SysOk(s) && id < SLOTS && IsUser(s.slots[id])
    decreases s.n - i
  {
    if i >= s.n then true
    else if i == id || !IsUser(s.slots[i]) then CouldFrom(s, id, i + 1)
    else
      Could(s, id, s.slots[i].el1 / PAGE) &&
      (BarKeeps(s, id, i);
       var a := Bar(s, id, s.slots[i].el1);
       Could(a, i, a.slots[id].el1 / PAGE) &&
       (BarKeeps(a, i, id);
        CouldFrom(Bar(a, i, a.slots[id].el1), id, i + 1)))
  }

  /** Tables apart, the slots are the same. */
  ghost predicate SameTasks(s: Sys, t: Sys) {
    |t.slots| == |s.slots| && t.n == s.n && t.others == s.others &&
    forall i :: 0 <= i < |s.slots| ==>
      t.slots[i].el1 == s.slots[i].el1 && t.slots[i].stack == s.slots[i].stack && t.slots[i].used == s.slots[i].used
  }

  /** The pairs of `id` with the user tasks from slot `i` on are barred both
      ways. */
  ghost predicate PairsFrom(t: Sys, id: nat, i: nat) {
    forall j: nat :: i <= j && Users(t, id, j) ==> Barred(t, id, j) && Barred(t, j, id)
  }

  /** The whole loop keeps the invariant and every pair that `id` is not in; it
      bars all pairs from `i` on exactly when every turn could. */
  lemma {:induction false} BarFromKeeps(s: Sys, id: nat, i: nat)
    requires SysOk(s) && id < SLOTS && IsUser(s.slots[id])
    ensures var t := BarFrom(s, id, i);
      SysOk(t) && SameTasks(s, t) &&
      (forall x: nat, y: nat :: (Users(s, x, y) && x != id && y != id) ==> (Barred(t, x, y) <==> Barred(s, x, y))) &&
      (forall j: nat :: (j < i && Users(s, id, j)) ==>
        ((Barred(t, id, j) <==> Barred(s, id, j)) && (Barred(t, j, id) <==> Barred(s, j, id)))) &&
      (CouldFrom(s, id, i) <==> PairsFrom(t, id, i))
    decreases s.n - i
  {
    hide Bar, Could, Barred, SlotOk, Separate, Good, ProcOk, PairsFrom;
    if i >= s.n {
      assert PairsFrom(s, id, i) by { NoPairsPast(s, id, i); }
    } else if i == id || !IsUser(s.slots[i]) {
      BarFromKeeps(s, id, i + 1);
      PairsSkip(BarFrom(s, id, i + 1), id, i);
    } else {
      BarKeeps(s, id, i);
      var a := Bar(s, id, s.slots[i].el1);
      BarKeeps(a, i, id);
      var b := Bar(a, i, a.slots[id].el1);
      BarFromKeeps(b, id, i + 1);
      var t := BarFrom(b, id, i + 1);
      assert SameTasks(s, a) && SameTasks(a, b);
      TasksSame(s, a, b);
      TasksSame(s, b, t);
      PairsSplit(t, id, i);
      PairsThrough(s, a, b, t, id, i);
    }
  }

  // ----- room for barring all pairs -----

  /** Task `k`'s table maps block `b` whole. */
  predicate MapsWhole(s: Sys, k: nat, b: nat) {
    k < |s.slots| && s.slots[k].proc.Some? && |s.slots[k].proc.value.l2| == 4 && b < BLOCKS &&
    !Split(s.w.mem, s.slots[k].proc.value, b)
  }

  /** The level-3 slots task `k`'s table has in use. */
  function InUse(s: Sys, k: nat): nat {
    if k < |s.slots| && s.slots[k].proc.Some? then |s.slots[k].proc.value.l3| else 0
  }

  /** The block of task `j`'s stack. */
  function StackBlock(s: Sys, j: nat): nat
    requires j < |s.slots|
  {
    s.slots[j].el1 / PAGE / ENTRIES
  }

  /** The blocks of other tasks' stacks that the table of `id` maps whole. */
  ghost function WholeBlocks(s: Sys, id: nat, i: nat): set<nat> {
    set j: nat | i <= j < s.n && Users(s, id, j) && MapsWhole(s, id, StackBlock(s, j)) :: StackBlock(s, j)
  }

  /** The other tasks whose tables map the block of the stack of `id` whole. */
  ghost function WholeTables(s: Sys, id: nat, i: nat): set<nat> {
    set j: nat | i <= j < s.n && Users(s, id, j) && MapsWhole(s, j, StackBlock(s, id))
  }

  /** There are slots and pages of memory for all blocks to be split: in the
      table of `id` for the stacks from slot `i` on, and in the tables from slot
      `j` on for the stack of `id`. */
  ghost predicate Room(s: Sys, id: nat, i: nat, j: nat) {
    InUse(s, id) + |WholeBlocks(s, id, i)| <= MAX_L3 &&
    (forall k :: k in WholeTables(s, id, j) ==> InUse(s, k) < MAX_L3) &&
    CanServe(s.w.heap, |WholeBlocks(s, id, i)| + |WholeTables(s, id, j)|)
  }

  /** From `s` to `t`, block `b` of task `k`'s table has been split, if it was
      whole, and nothing else. */
  ghost predicate Opens(s: Sys, t: Sys, k: nat, b: nat) {
    SameTasks(s, t) &&
    (forall x: nat, c: nat :: MapsWhole(t, x, c) <==> MapsWhole(s, x, c) && !(x == k && c == b)) &&
    (forall x: nat :: InUse(t, x) == InUse(s, x) + if x == k && MapsWhole(s, k, b) then 1 else 0) &&
    t.w.heap == if MapsWhole(s, k, b) then KmallocPage(s.w.heap).0 else s.w.heap
  }

  lemma {:induction false} BarOpens(s: Sys, k: nat, j: nat)
    requires SysOk(s) && Users(s, k, j) && Could(s, k, s.slots[j].el1 / PAGE)
    ensures k < |s.slots| && j < |s.slots| && s.slots[k].proc.Some? && ProcOk(s.w, s.slots[k].proc.value) && Good(s.w.heap)
    ensures Opens(s, Bar(s, k, s.slots[j].el1), k, StackBlock(s, j))
  {
    hide HeapOk, TablesOk, Owns, Separate, Hidden, UnmapRange, UnmapPage, Split, Owned, Grew, KmallocPage;
    assert SlotOk(s.w, s.slots[k]) && SlotOk(s.w, s.slots[j]);
    var va := s.slots[j].el1;
    var n := va / PAGE;
    var p := s.slots[k].proc.value;
    OnePage(s.w, p, va);
    UnmapPageKeeps(s.w, p, n);
    UnmapPageSplits(s.w, p, n);
    var t := Bar(s, k, va);
    FourTables(s.w, p);
    forall i: nat | i < SLOTS && i != k
      ensures s.slots[i].proc.Some? && |s.slots[i].proc.value.l2| == 4 ==> forall c: nat :: c < BLOCKS ==>
        (Split(t.w.mem, s.slots[i].proc.value, c) <==> Split(s.w.mem, s.slots[i].proc.value, c))
    {
      OtherSlot(s, k, t.w, t.slots[k].proc.value, i);
    }
  }

  lemma CouldSplit(s: Sys, k: nat, n: nat)
    requires SysOk(s) && k < SLOTS && s.slots[k].proc.Some? && n < PAGES
    ensures Could(s, k, n) <==>
      (MapsWhole(s, k, n / ENTRIES) ==> InUse(s, k) < MAX_L3 && KmallocPage(s.w.heap).1 != 0)
  {
    hide HeapOk, TablesOk, Split, Separate, KmallocPage;
    assert SlotOk(s.w, s.slots[k]);
    FourTables(s.w, s.slots[k].proc.value);
  }

  lemma SameUsers(s: Sys, t: Sys, id: nat)
    requires SameTasks(s, t) && id < |s.slots|
    ensures t.n == s.n && |t.slots| == |s.slots|
    ensures forall j: nat :: Users(t, id, j) <==> Users(s, id, j)
    ensures forall j: nat :: j < |s.slots| ==> StackBlock(t, j) == StackBlock(s, j)
  {
  }

  lemma BlocksAhead(s: Sys, a: Sys, id: nat, i: nat)
    requires Users(s, id, i) && i < s.n && Opens(s, a, id, StackBlock(s, i))
    ensures var b, rest := StackBlock(s, i), WholeBlocks(a, id, i + 1);
      b !in rest && WholeBlocks(s, id, i) == if MapsWhole(s, id, b) then rest + {b} else rest
    ensures WholeTables(a, id, i) == WholeTables(s, id, i)
  {
    hide MapsWhole, InUse, KmallocPage;
    SameUsers(s, a, id);
    hide StackBlock;
  }

  lemma TablesAhead(s: Sys, b: Sys, id: nat, i: nat)
    requires Users(s, id, i) && i < s.n && Opens(s, b, i, StackBlock(s, id))
    ensures var rest := WholeTables(b, id, i + 1);
      i !in rest && WholeTables(s, id, i) == if MapsWhole(s, i, StackBlock(s, id)) then rest + {i} else rest
    ensures WholeBlocks(b, id, i + 1) == WholeBlocks(s, id, i + 1)
  {
    hide MapsWhole, InUse, KmallocPage;
    SameUsers(s, b, id);
    hide StackBlock;
  }

  /** The turn of slot `i` on the table of `id`. */
  lemma BlockTurn(s: Sys, a: Sys, id: nat, i: nat)
    requires Users(s, id, i) && i < s.n && Opens(s, a, id, StackBlock(s, i))
    requires MapsWhole(s, id, StackBlock(s, i)) ==> InUse(s, id) < MAX_L3 && KmallocPage(s.w.heap).1 != 0
    ensures Room(s, id, i, i) <==> Room(a, id, i + 1, i)
  {
    hide KmallocPage, MapsWhole, InUse, SameTasks, CanServe, StackBlock;
    BlocksAhead(s, a, id, i);
    assert id !in WholeTables(s, id, i);
    hide WholeBlocks, WholeTables, Users;
    OneServed(s.w.heap, |WholeBlocks(a, id, i + 1)| + |WholeTables(a, id, i)|, MapsWhole(s, id, StackBlock(s, i)));
    assert InUse(a, id) == InUse(s, id) + if MapsWhole(s, id, StackBlock(s, i)) then 1 else 0;
    assert forall k :: k in WholeTables(s, id, i) ==> InUse(a, k) == InUse(s, k);
    assert a.w.heap == if MapsWhole(s, id, StackBlock(s, i)) then KmallocPage(s.w.heap).0 else s.w.heap;
    hide Opens;
  }

  lemma OneServed(h: HeapState, k: nat, more: bool)
    requires more ==> KmallocPage(h).1 != 0
    ensures var g := if more then KmallocPage(h).0 else h;
      CanServe(g, k) <==> CanServe(h, if more then k + 1 else k)
  {
    hide KmallocPage;
  }

  lemma BlockFull(s: Sys, id: nat, i: nat)
    requires Users(s, id, i) && i < s.n && MapsWhole(s, id, StackBlock(s, i))
    requires InUse(s, id) >= MAX_L3 || KmallocPage(s.w.heap).1 == 0
    ensures !Room(s, id, i, i)
  {
    hide MapsWhole, InUse, KmallocPage;
    assert StackBlock(s, i) in WholeBlocks(s, id, i);
  }

  /** The turn of slot `i` on its own table. */
  lemma TableTurn(s: Sys, b: Sys, id: nat, i: nat)
    requires Users(s, id, i) && i < s.n && Opens(s, b, i, StackBlock(s, id))
    requires MapsWhole(s, i, StackBlock(s, id)) ==> InUse(s, i) < MAX_L3 && KmallocPage(s.w.heap).1 != 0
    ensures Room(s, id, i + 1, i) <==> Room(b, id, i + 1, i + 1)
  {
    hide KmallocPage, MapsWhole, InUse, SameTasks, CanServe, StackBlock;
    TablesAhead(s, b, id, i);
    assert id != i;
    hide WholeBlocks, WholeTables, Users;
    OneServed(s.w.heap, |WholeBlocks(b, id, i + 1)| + |WholeTables(b, id, i + 1)|, MapsWhole(s, i, StackBlock(s, id)));
    assert InUse(b, id) == InUse(s, id);
    assert forall k :: k in WholeTables(b, id, i + 1) ==> InUse(b, k) == InUse(s, k);
    assert b.w.heap == if MapsWhole(s, i, StackBlock(s, id)) then KmallocPage(s.w.heap).0 else s.w.heap;
    hide Opens;
  }

  lemma TableFull(s: Sys, id: nat, i: nat)
    requires Users(s, id, i) && i < s.n && MapsWhole(s, i, StackBlock(s, id))
    requires InUse(s, i) >= MAX_L3 || KmallocPage(s.w.heap).1 == 0
    ensures !Room(s, id, i + 1, i)
  {
    hide MapsWhole, InUse, KmallocPage;
    assert i in WholeTables(s, id, i);
  }

  /** Every turn of the loop can go ahead exactly when there is room for all of
      them at the start. */
  lemma {:induction false} CouldIfRoom(s: Sys, id: nat, i: nat)
    requires SysOk(s) && id < SLOTS && IsUser(s.slots[id])
    ensures CouldFrom(s, id, i) <==> Room(s, id, i, i)
    decreases s.n - i
  {
    hide Bar, Could, Barred, Separate, Good, ProcOk, Room, Opens, MapsWhole, InUse, KmallocPage, StackBlock;
    if i >= s.n {
      NothingLeft(s, id, i);
    } else if i == id || !IsUser(s.slots[i]) {
      CouldIfRoom(s, id, i + 1);
      NoTurn(s, id, i);
    } else {
      BarKeeps(s, id, i);
      StackPage(s, i);
      CouldSplit(s, id, s.slots[i].el1 / PAGE);
      if !Could(s, id, s.slots[i].el1 / PAGE) {
        BlockFull(s, id, i);
      } else {
        var a := Bar(s, id, s.slots[i].el1);
        BarOpens(s, id, i);
        BlockTurn(s, a, id, i);
        BarKeeps(a, i, id);
        StackPage(a, id);
        CouldSplit(a, i, a.slots[id].el1 / PAGE);
        if !Could(a, i, a.slots[id].el1 / PAGE) {
          TableFull(a, id, i);
        } else {
          var b := Bar(a, i, a.slots[id].el1);
          BarOpens(a, i, id);
          TableTurn(a, b, id, i);
          CouldIfRoom(b, id, i + 1);
        }
      }
    }
  }

  lemma StackPage(s: Sys, j: nat)
    requires SysOk(s) && j < SLOTS && IsUser(s.slots[j])
    ensures s.slots[j].el1 / PAGE < PAGES && s.slots[j].proc.Some?
    ensures StackBlock(s, j) == s.slots[j].el1 / PAGE / ENTRIES
  {
    hide HeapOk, ProcOk, Separate, Hidden;
    assert SlotOk(s.w, s.slots[j]);
  }

  lemma NothingLeft(s: Sys, id: nat, i: nat)
    requires SysOk(s) && id < SLOTS && IsUser(s.slots[id]) && i >= s.n
    ensures Room(s, id, i, i)
  {
    hide HeapOk, TablesOk, Separate, Split;
    assert SlotOk(s.w, s.slots[id]);
    assert WholeBlocks(s, id, i) == {} && WholeTables(s, id, i) == {};
  }

  lemma NoTurn(s: Sys, id: nat, i: nat)
    requires !Users(s, id, i)
    ensures Room(s, id, i, i) <==> Room(s, id, i + 1, i + 1)
  {
    hide MapsWhole, InUse, KmallocPage, StackBlock;
    assert WholeBlocks(s, id, i) == WholeBlocks(s, id, i + 1);
    assert WholeTables(s, id, i) == WholeTables(s, id, i + 1);
  }

  /** What two bars and the turns after them do to the pairs of tasks. */
  lemma PairsThrough(s: Sys, a: Sys, b: Sys, t: Sys, id: nat, i: nat)
    requires Users(s, id, i) && SameTasks(s, a) && SameTasks(a, b) && SameTasks(b, t)
    requires forall x: nat, y: nat :: (Users(s, x, y) && (x != id || y != i)) ==> (Barred(a, x, y) <==> Barred(s, x, y))
    requires forall x: nat, y: nat :: (Users(a, x, y) && (x != i || y != id)) ==> (Barred(b, x, y) <==> Barred(a, x, y))
    requires forall x: nat, y: nat :: (Users(b, x, y) && x != id && y != id) ==> (Barred(t, x, y) <==> Barred(b, x, y))
    requires forall j: nat :: (j < i + 1 && Users(b, id, j)) ==>
      ((Barred(t, id, j) <==> Barred(b, id, j)) && (Barred(t, j, id) <==> Barred(b, j, id)))
    ensures forall x: nat, y: nat :: (Users(s, x, y) && x != id && y != id) ==> (Barred(t, x, y) <==> Barred(s, x, y))
    ensures forall j: nat :: (j < i && Users(s, id, j)) ==>
      ((Barred(t, id, j) <==> Barred(s, id, j)) && (Barred(t, j, id) <==> Barred(s, j, id)))
    ensures Barred(t, id, i) <==> Barred(a, id, i)
    ensures Barred(t, i, id) <==> Barred(b, i, id)
  {
    hide Barred;
    assert forall x: nat, y: nat :: Users(s, x, y) <==> Users(a, x, y);
    assert forall x: nat, y: nat :: Users(s, x, y) <==> Users(b, x, y);
    assert Users(s, i, id);
  }

  lemma PairsSkip(t: Sys, id: nat, i: nat)
    requires !Users(t, id, i)
    ensures PairsFrom(t, id, i) <==> PairsFrom(t, id, i + 1)
  {
    hide Barred;
  }

  lemma NoPairsPast(s: Sys, id: nat, i: nat)
    requires SysOk(s) && i >= s.n
    ensures PairsFrom(s, id, i)
  {
    hide SlotOk, Separate, Good;
  }

  lemma TasksSame(s: Sys, b: Sys, t: Sys)
    requires SameTasks(s, b) && SameTasks(b, t)
    ensures SameTasks(s, t)
    ensures forall x: nat, y: nat :: Users(s, x, y) <==> Users(b, x, y)
    ensures forall x: nat, y: nat :: Users(s, x, y) <==> Users(t, x, y)
  {
  }

  lemma PairsSplit(t: Sys, id: nat, i: nat)
    requires Users(t, id, i)
    ensures PairsFrom(t, id, i) <==> PairsFrom(t, id, i + 1) && Barred(t, id, i) && Barred(t, i, id)
  {
    hide Barred;
  }

  // ----- the whole creation -----

  /** All of `user_task_create` before the loop: user stack, task, table; SLOTS
      when some part cannot be had, all taken so far being given back. */
  function Prepare(s: Sys): (Sys, nat)
    requires SysOk(s)
  {
    Powers();
    TakeKeeps(s, STACK_SIZE, PAGE);
    var a := Take(s, STACK_SIZE, PAGE);
    if a.1 == 0 then (s, SLOTS)
    else
      SpawnKeeps(a.0);
      WithSlot(Spawn(a.0), a.1)
  }

  /** Continue with the slot, if there was one. */
  function WithSlot(b: (Sys, nat), el1: nat): (Sys, nat)
    requires SysOk(b.0) && el1 in b.0.others && b.1 <= SLOTS
  {
    OthersLive(b.0);
    if b.1 == SLOTS then (Give(b.0, el1), SLOTS)
    else
      TabledKeeps(b.0);
      WithTable(Tabled(b.0), b.1, el1)
  }

  /** Continue with the table, if it could be made. */
  function WithTable(c: (Sys, Option<Proc>), id: nat, el1: nat): (Sys, nat)
    requires SysOk(c.0) && el1 in c.0.others && id < SLOTS
  {
    OthersLive(c.0);
    if c.1.None? then (Kill(Give(c.0, el1), id), SLOTS) else (Commit(c.0, id, el1, c.1.value), id)
  }

  lemma OthersLive(s: Sys)
    requires SysOk(s)
    ensures forall a :: a in s.others ==> a in s.w.heap.live
  {
  }

  /** Task `id` has just been set up, with a table that maps everything. */
  ghost predicate Prepared(s: Sys, t: Sys, id: nat) {
    SysOk(t) &&
    (forall x: nat, y: nat :: (Users(s, x, y) && x != id && y != id) ==> (Users(t, x, y) && (Barred(t, x, y) <==> Barred(s, x, y)))) &&
    (forall x: nat, y: nat :: (Users(t, x, y) && x != id && y != id) ==> Users(s, x, y)) &&
    (id < SLOTS ==> (id < t.n && IsUser(t.slots[id]) && |s.slots| == SLOTS && !IsUser(s.slots[id])))
  }

  /** User slots are the same and hide the same pages. */
  ghost predicate Kept(s: Sys, t: Sys) {
    |s.slots| == SLOTS && |t.slots| == SLOTS &&
    forall i: nat :: i < SLOTS ==>
      (t.slots[i] == s.slots[i] || (!IsUser(t.slots[i]) && !IsUser(s.slots[i]))) &&
      (s.slots[i].proc.Some? && t.slots[i] == s.slots[i] ==> SameHidden(s.w, t.w, s.slots[i].proc.value))
  }

  lemma KeptTwice(s: Sys, t: Sys, u: Sys)
    requires Kept(s, t) && Kept(t, u) && (forall i :: 0 <= i < SLOTS ==> SlotOk(s.w, s.slots[i]))
    ensures Kept(s, u)
  {
    hide Hidden, ProcOk;
    forall i: nat | i < SLOTS && s.slots[i].proc.Some? && u.slots[i] == s.slots[i]
      ensures SameHidden(s.w, u.w, s.slots[i].proc.value)
    {
      assert SlotOk(s.w, s.slots[i]);
    }
  }

  lemma KeptMemory(s: Sys, t: Sys)
    requires SysOk(s) && |t.slots| == SLOTS && t.w.mem == s.w.mem
    requires forall i :: 0 <= i < SLOTS ==> t.slots[i] == s.slots[i] || (!IsUser(t.slots[i]) && !IsUser(s.slots[i]))
    ensures Kept(s, t)
  {
    hide Hidden, TablesOk, HeapOk;
    forall i: nat | i < SLOTS && s.slots[i].proc.Some? && t.slots[i] == s.slots[i]
      ensures SameHidden(s.w, t.w, s.slots[i].proc.value)
    {
      assert SlotOk(s.w, s.slots[i]);
    }
  }

  /** From kept slots to a prepared task. */
  lemma KeptPairs(s: Sys, t: Sys)
    requires Kept(s, t) && SysOk(s)
    ensures forall x: nat, y: nat :: Users(s, x, y) <==> Users(t, x, y)
    ensures forall x: nat, y: nat :: Users(s, x, y) ==> (Barred(t, x, y) <==> Barred(s, x, y))
  {
    hide Hidden, ProcOk, HeapOk;
    forall x: nat, y: nat | Users(s, x, y) ensures Barred(t, x, y) <==> Barred(s, x, y) {
      assert SlotOk(s.w, s.slots[x]) && SlotOk(s.w, s.slots[y]);
    }
  }

  lemma TakePage(s: Sys)
    requires SysOk(s)
    ensures var p := Take(s, STACK_SIZE, PAGE).1; p % PAGE == 0 && p < FOUR_GB
  {
    hide HeapOk, Alloc, SlotOk, Separate;
    PageFrom(s.w.heap);
    assert PAGE == STACK_SIZE;
  }

  /** The set-up from the state with the task's slot on. */
  lemma {:induction false} WithSlotKeeps(s: Sys, b: Sys, id: nat, el1: nat)
    requires SysOk(s) && Kept(s, b) && SysOk(b) && el1 in b.others && id <= SLOTS
    requires el1 % PAGE == 0 && 0 < el1 < FOUR_GB
    requires id < SLOTS ==> 0 < id < b.n && b.slots[id].used && b.slots[id].el1 == 0
    ensures var (t, r) := WithSlot((b, id), el1); Prepared(s, t, r) && r <= SLOTS && (r < SLOTS ==> r == id)
  {
    hide HeapOk, Tabled, Give, SlotOk, Separate, Hidden, Barred, PowerOfTwo, Owns, TablesOk;
    OthersLive(b);
    if id == SLOTS {
      GiveKeeps(b, el1);
      var t := Give(b, el1);
      KeptMemory(b, t);
      KeptTwice(s, b, t);
      KeptPairs(s, t);
    } else {
      TabledKeeps(b);
      var (c, r) := Tabled(b);
      assert Kept(b, c);
      KeptTwice(s, b, c);
      OthersLive(c);
      if r.None? {
        WithoutTable(s, c, id, el1);
      } else {
        assert el1 !in Parts(r.value);
        CommitKeeps(c, id, el1, r.value);
        KeptPairs(s, c);
        CommitPairs(c, id, el1, r.value);
      }
    }
  }

  lemma WithoutTable(s: Sys, c: Sys, id: nat, el1: nat)
    requires SysOk(s) && SysOk(c) && Kept(s, c) && el1 in c.others && el1 in c.w.heap.live
    requires 0 < id < c.n && c.slots[id].used && !IsUser(c.slots[id])
    ensures Prepared(s, Kill(Give(c, el1), id), SLOTS)
  {
    hide HeapOk, Give, SlotOk, Separate, Hidden, Barred, FreeEach;
    GiveKeeps(c, el1);
    var d := Give(c, el1);
    CleanUpKeeps(d, id);
    EmptyOk(d.w);
    KeptMemory(c, Kill(d, id));
    KeptTwice(s, c, Kill(d, id));
    KeptPairs(s, Kill(d, id));
  }

  lemma CommitPairs(c: Sys, id: nat, el1: nat, p: Proc)
    requires |c.slots| == SLOTS && id < SLOTS && el1 != 0
    ensures var t := Commit(c, id, el1, p);
      (forall x: nat, y: nat :: (x != id && y != id) ==> (Users(c, x, y) <==> Users(t, x, y))) &&
      (forall x: nat, y: nat :: (x != id && y != id && Users(c, x, y)) ==> (Barred(t, x, y) <==> Barred(c, x, y)))
  {
    hide Hidden;
  }

  lemma {:induction false} PrepareKeeps(s: Sys)
    requires SysOk(s)
    ensures var (t, id) := Prepare(s); Prepared(s, t, id) && id <= SLOTS
  {
    hide HeapOk, Take, Spawn, SlotOk, Separate, Hidden, Barred, PowerOfTwo, WithSlot;
    Powers();
    TakeKeeps(s, STACK_SIZE, PAGE);
    TakePage(s);
    var (a, el1) := Take(s, STACK_SIZE, PAGE);
    if el1 != 0 {
      SpawnKeeps(a);
      var (b, id) := Spawn(a);
      KeptMemory(s, b);
      WithSlotKeeps(s, b, id, el1);
    } else {
      KeptMemory(s, s);
      KeptPairs(s, s);
    }
  }

  /** `user_task_create`; SLOTS when it fails. */
  function UserCreate(s: Sys): (Sys, nat)
    requires SysOk(s)
  {
    PrepareKeeps(s);
    var r := Prepare(s);
    if r.1 == SLOTS then r else (BarFrom(r.0, r.1, 0), r.1)
  }

  /** The condition for isolation, when the new task is set up: its table has
      level-3 slots for all the blocks its neighbours' stacks are in, each
      neighbour's table has a slot for the block of its stack, unless that is
      split already, and the heap has a page of memory for each of them. */
  ghost predicate RoomToBar(s: Sys)
    requires SysOk(s)
  {
    PrepareKeeps(s);
    var r := Prepare(s);
    r.1 == SLOTS || Room(r.0, r.1, 0, 0)
  }

  /** Creating a task keeps the invariant always; it keeps all stacks isolated
      exactly when there was room to bar them. */
  lemma {:induction false} UserCreateIsolated(s: Sys)
    requires SysOk(s) && Isolated(s)
    ensures var t := UserCreate(s).0; SysOk(t) && (Isolated(t) <==> RoomToBar(s))
  {
    hide SlotOk, Separate, Good, Barred, Prepare, BarFrom, CouldFrom, Room;
    PrepareKeeps(s);
    var (d, id) := Prepare(s);
    if id < SLOTS {
      BarFromKeeps(d, id, 0);
      CouldIfRoom(d, id, 0);
      var t := BarFrom(d, id, 0);
      assert forall x: nat, y: nat :: Users(d, x, y) <==> Users(t, x, y);
      IsolatedPairs(t, id);
    } else {
      IsolatedPairs(d, SLOTS);
    }
  }

  /** Isolation is the pairs of one task and the pairs without it. */
  lemma IsolatedPairs(t: Sys, id: nat)
    requires |t.slots| == SLOTS && id <= SLOTS && (id < SLOTS ==> IsUser(t.slots[id]))
    ensures Isolated(t) <==>
      ((id < SLOTS ==> PairsFrom(t, id, 0)) && forall x: nat, y: nat :: (Users(t, x, y) && x != id && y != id) ==> Barred(t, x, y))
  {
    hide Barred;
    if (id < SLOTS ==> PairsFrom(t, id, 0)) && (forall x: nat, y: nat :: (Users(t, x, y) && x != id && y != id) ==> Barred(t, x, y)) {
      forall x: nat, y: nat | Users(t, x, y) ensures Barred(t, x, y) {
        if x == id {
          assert Users(t, id, y);
        } else if y == id {
          assert Users(t, id, x);
        }
      }
      assert Isolated(t);
    }
    if Isolated(t) {
      forall j: nat | Users(t, id, j) ensures Barred(t, id, j) && Barred(t, j, id) {
        assert IsUser(t.slots[id]) && IsUser(t.slots[j]);
      }
    }
  }

  // ----- runs -----

  datatype Label =
    | CreateUser
    | CreateTask
    | KillTask(id: nat)
    | Malloc(size: nat, align: nat)
    | Release(p: nat)

  ghost predicate Enabled(s: Sys, l: Label)
    requires SysOk(s)
  {
    match l
    case CreateUser => RoomToBar(s)
    case CreateTask => true
    case KillTask(_) => true
    case Malloc(size, align) => 0 < size <= FOUR_GB && PowerOfTwo(align) && align <= PAGE
    case Release(p) => p in s.others
  }

  function Step(s: Sys, l: Label): Sys
    requires SysOk(s) && (l.Release? ==> l.p in s.others)
  {
    OthersLive(s);
    match l
    case CreateUser => UserCreate(s).0
    case CreateTask => Spawn(s).0
    case KillTask(id) => Kill(s, id)
    case Malloc(size, align) => Take(s, size, align).0
    case Release(p) => Give(s, p)
  }

  ghost predicate Runs(s: Sys, ls: seq<Label>, t: Sys)
    requires SysOk(s) && Isolated(s)
    decreases |ls|
  {
    if ls == [] then t == s
    else
      Enabled(s, ls[0]) && (StepIsolated(s, ls[0]); Runs(Step(s, ls[0]), ls[1..], t))
  }

  lemma {:induction false} StepIsolated(s: Sys, l: Label)
    requires SysOk(s) && Isolated(s) && Enabled(s, l)
    ensures SysOk(Step(s, l)) && Isolated(Step(s, l))
  {
    hide SlotOk, Separate, Good, Barred, Prepare, BarFrom, Room, Take, Spawn, Give, Kill, UserCreate, PowerOfTwo, RoomToBar;
    OthersLive(s);
    match l
    case CreateUser => UserCreateIsolated(s);
    case CreateTask =>
      SpawnKeeps(s);
      KeptMemory(s, Spawn(s).0);
      KeptPairs(s, Spawn(s).0);
      IsolatedPairs(Spawn(s).0, SLOTS);
    case KillTask(id) => KillIsolated(s, id);
    case Malloc(size, align) =>
      TakeKeeps(s, size, align);
      KeptMemory(s, Take(s, size, align).0);
      KeptPairs(s, Take(s, size, align).0);
      IsolatedPairs(Take(s, size, align).0, SLOTS);
    case Release(p) =>
      GiveKeeps(s, p);
      KeptMemory(s, Give(s, p));
      KeptPairs(s, Give(s, p));
      IsolatedPairs(Give(s, p), SLOTS);
  }

  lemma {:induction false} RunsIsolated(s: Sys, ls: seq<Label>, t: Sys)
    requires SysOk(s) && Isolated(s) && Runs(s, ls, t)
    ensures SysOk(t) && Isolated(t)
    decreases |ls|
  {
    hide SysOk, Isolated, RoomToBar, Step, PowerOfTwo;
    if ls != [] {
      StepIsolated(s, ls[0]);
      RunsIsolated(Step(s, ls[0]), ls[1..], t);
    }
  }

  /** Only task 0 exists. */
  ghost predicate Boot(s: Sys) {
    Good(s.w.heap) && s.n == 1 && s.others == s.w.heap.live.Keys &&
    s.slots == seq(SLOTS, i requires 0 <= i < SLOTS => if i == 0 then Slot(true, 0, 0, None) else EMPTY)
  }

  lemma BootOk(s: Sys)
    requires Boot(s)
    ensures SysOk(s) && Isolated(s)
  {
    hide HeapOk;
    assert |s.slots| == SLOTS;
    forall i | 0 <= i < SLOTS ensures SlotOk(s.w, s.slots[i]) && !IsUser(s.slots[i]) && forall a :: !Owned(s.slots[i], a) {
      assert s.slots[i] == Slot(true, 0, 0, None) || s.slots[i] == EMPTY;
    }
  }

  /** Over every run from boot with room to bar, and for every two user tasks
      `i` and `j`: the hardware, walking `i`'s table, finds nothing anywhere in
      `j`'s stack, and finds all of `i`'s own stack at its own address. */
  lemma {:induction false} StackIsolation(s: Sys, ls: seq<Label>, t: Sys, i: nat, j: nat, va: nat)
    requires Boot(s) && (BootOk(s); Runs(s, ls, t))
    requires i < |t.slots| && t.slots[i].proc.Some?
    ensures Users(t, i, j) && t.slots[j].el1 <= va < t.slots[j].el1 + STACK_SIZE ==>
      Translate(t.w.mem, t.slots[i].proc.value.l1, va) == Absent
    ensures t.slots[i].el1 <= va < t.slots[i].el1 + STACK_SIZE ==>
      Translate(t.w.mem, t.slots[i].proc.value.l1, va) == Mapped(va, if va >= 0x3C00_0000 then 0x181 else 0x1C0)
  {
    BootOk(s);
    RunsIsolated(s, ls, t);
    hide HeapOk, Runs, Separate, Hidden, ProcOk, Translate;
    var p := t.slots[i].proc.value;
    assert SlotOk(t.w, t.slots[i]);
    if Users(t, i, j) && t.slots[j].el1 <= va < t.slots[j].el1 + STACK_SIZE {
      assert SlotOk(t.w, t.slots[j]);
      assert Barred(t, i, j);
      SamePage(t.slots[j].el1, va);
      TranslateIs(t.w, p, va);
    }
    if t.slots[i].el1 <= va < t.slots[i].el1 + STACK_SIZE {
      SamePage(t.slots[i].el1, va);
      TranslateIs(t.w, p, va);
    }
  }

  lemma SamePage(base: nat, va: nat)
    requires base % PAGE == 0 && base < FOUR_GB && base <= va < base + STACK_SIZE
    ensures va / PAGE == base / PAGE && va < FOUR_GB
  {
  }

  /** When every task has ended, what is live is what the rest of the kernel
      holds: tasks leak no memory. */
  lemma NothingLeaks(s: Sys)
    requires SysOk(s) && forall i :: 0 <= i < SLOTS ==> !s.slots[i].used || s.slots[i] == Slot(true, 0, 0, None)
    ensures s.w.heap.live.Keys == s.others
  {
    hide HeapOk, ProcOk;
    forall i | 0 <= i < SLOTS ensures forall a :: !Owned(s.slots[i], a) {
      assert SlotOk(s.w, s.slots[i]);
    }
  }

  // ----- one step at a time, for the code -----

  lemma BarIs(s: Sys, k: nat, va: nat)
    requires k < |s.slots| && s.slots[k].proc.Some? && ProcOk(s.w, s.slots[k].proc.value) && Good(s.w.heap)
    ensures var r := UnmapRange(s.w, s.slots[k].proc.value, va, STACK_SIZE);
      Bar(s, k, va) == s.(w := r.0, slots := s.slots[k := s.slots[k].(proc := Some(r.1))])
  {
  }

  /** One turn of the loop. */
  lemma BarStep(s: Sys, id: nat, i: nat)
    requires SysOk(s) && id < SLOTS && IsUser(s.slots[id])
    ensures |s.slots| == SLOTS && s.n <= SLOTS
    ensures i >= s.n ==> BarFrom(s, id, i) == s
    ensures i < s.n && (i == id || !IsUser(s.slots[i])) ==> BarFrom(s, id, i) == BarFrom(s, id, i + 1)
  {
    hide Bar, SlotOk, Separate, Good;
  }

  /** A turn that bars a pair both ways. */
  lemma BarTurn(s: Sys, id: nat, i: nat)
    requires SysOk(s) && id < SLOTS && IsUser(s.slots[id]) && i < s.n && i != id && IsUser(s.slots[i])
    ensures (BarKeeps(s, id, i);
       var a := Bar(s, id, s.slots[i].el1);
       OnlyTable(s, a, id) &&
       (BarKeeps(a, i, id);
        var b := Bar(a, i, a.slots[id].el1);
        BarFrom(s, id, i) == BarFrom(b, id, i + 1) && SysOk(b) && OnlyTable(a, b, i)))
  {
    hide Bar, SlotOk, Separate, Good;
    BarKeeps(s, id, i);
    BarKeeps(Bar(s, id, s.slots[i].el1), i, id);
  }

  lemma TakeNothing(s: Sys, size: nat, align: nat)
    ensures Take(s, size, align).1 == 0 ==> Take(s, size, align).0 == s
  {
  }

  lemma NoRoom(s: Sys, size: nat, align: nat)
    requires SysOk(s) && 0 < size <= FOUR_GB && PowerOfTwo(align) && align <= PAGE && Alloc(s.w.heap, size, align).1 == 0
    ensures Alloc(s.w.heap, size, align).0 == s.w.heap
  {
    hide HeapOk, Alloc, PowerOfTwo, SlotOk, Separate;
    AllocGood(s.w.heap, size, align);
  }

  lemma SysGood(s: Sys)
    requires SysOk(s)
    ensures Good(s.w.heap) && |s.slots| == SLOTS && 0 !in s.w.heap.live
    ensures forall i :: 0 <= i < SLOTS && IsUser(s.slots[i]) ==> s.slots[i].proc.Some?
  {
    hide HeapOk, ProcOk;
    ZeroNotLive(s.w.heap);
    assert forall i :: 0 <= i < SLOTS ==> SlotOk(s.w, s.slots[i]);
  }

  lemma SysOnce(s: Sys, id: nat)
    requires SysOk(s) && id < SLOTS
    ensures OnceLive(s.w.heap, Belongings(s.slots[id]))
  {
    hide HeapOk, SlotOk, Belongings;
    BelongingsOnce(s.w, s.slots[id]);
  }

  /** When stack, slot and table are there, completing the slot is sound. */
  lemma {:induction false} CommitAfter(s: Sys)
    requires SysOk(s)
    ensures var a := Take(s, STACK_SIZE, PAGE);
      var b := Spawn(a.0);
      a.1 != 0 && b.1 != SLOTS ==>
        (b.1 < SLOTS && a.1 in b.0.others && SysOk(b.0) &&
         var c := Tabled(b.0);
         (CreateProc(b.0.w).1.Some? <==> c.1.Some?) && (c.1.Some? ==> SysOk(Commit(c.0, b.1, a.1, c.1.value))))
  {
    hide HeapOk, Take, Spawn, SlotOk, Separate, CreateProc, PowerOfTwo;
    Powers();
    TakeKeeps(s, STACK_SIZE, PAGE);
    TakePage(s);
    var (a, el1) := Take(s, STACK_SIZE, PAGE);
    if el1 != 0 {
      SpawnKeeps(a);
      var (b, id) := Spawn(a);
      OthersLive(b);
      if id != SLOTS {
        TabledKeeps(b);
        var (c, r) := Tabled(b);
        if r.Some? {
          PartsHeld(c.w, r.value);
          CommitKeeps(c, id, el1, r.value);
        }
      }
    }
  }

  lemma PartsHeld(w: World, p: Proc)
    requires ProcOk(w, p)
    ensures forall a :: a in Parts(p) <==> a in PartSet(p)
  {
  }
}
