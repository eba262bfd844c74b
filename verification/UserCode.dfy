/** Creating and ending user tasks as code over the task table, the page tables
    in memory and the heap. */
module UserCode {
  import opened Basics
  import opened Pages
  import opened Procs
  import opened ProcLife
  import opened ProcCode
  import Heap
  import A = Allocator
  import I = Isolation

  /** A task slot: addresses are 0 and the process is null when there is none. */
  datatype Record = Record(used: bool, stack: nat, el1: nat, proc: Process?)

  const EMPTY := Record(false, 0, 0, null)

  /** What a slot stands for in the model. */
  ghost function SlotOf(r: Record): I.Slot
    requires r.proc != null ==> r.proc.Valid()
    reads if r.proc == null then {} else {r.proc, r.proc.l2, r.proc.l3}
  {
    I.Slot(r.used, r.stack, r.el1, if r.proc == null then None else Some(r.proc.View()))
  }

  /** Two processes share no memory. */
  ghost predicate Unshared(p: Process, q: Process) {
    p != q && p.l2 != q.l2 && p.l3 != q.l3 && p.l2 != q.l3 && p.l3 != q.l2
  }

  class UserTasks {
    const slots: array<Record>
    const pages: PageMemory
    var n: nat
    ghost var others: set<nat>      // live blocks of the rest of the kernel
    ghost var repr: set<object>     // the processes and their arrays

    ghost predicate Held(p: Process)
      reads this, repr
    {
      p in repr && p.l2 in repr && p.l3 in repr && p.Valid()
    }

    /** Objects are where they should be, and slots share none. */
    ghost predicate Shape()
      reads this, slots, repr
    {
      slots.Length == I.SLOTS && this !in repr && slots !in repr && pages !in repr && pages.heap !in repr &&
      (forall i :: 0 <= i < slots.Length && slots[i].proc != null ==> Held(slots[i].proc)) &&
      (forall i, j :: 0 <= i < j < slots.Length && slots[i].proc != null && slots[j].proc != null ==>
        Unshared(slots[i].proc, slots[j].proc))
    }

    ghost function Slots(i: nat): (r: seq<I.Slot>)
      requires Shape() && i <= I.SLOTS
      reads this, slots, repr
      ensures |r| == I.SLOTS - i && forall k :: 0 <= k < |r| ==> r[k] == SlotOf(slots[i + k])
      decreases I.SLOTS - i
    {
      if i == I.SLOTS then [] else [SlotOf(slots[i])] + Slots(i + 1)
    }

    ghost function View(): I.Sys
      requires Shape()
      reads this, slots, repr, pages, pages.heap
    {
      I.Sys(pages.World(), Slots(0), n, others)
    }

    ghost predicate Valid()
      reads this, slots, repr, pages, pages.heap
    {
      Shape() && pages.Valid() && I.SysOk(View())
    }

    constructor (pages: PageMemory)
      requires pages.Valid()
      ensures Valid() && I.Boot(View()) && fresh(slots) && this.pages == pages && View().w == pages.World()
    {
      this.pages := pages;
      others := pages.heap.view.live.Keys;
      n := 1;
      slots := new Record[I.SLOTS](i => if i == 0 then Record(true, 0, 0, null) else EMPTY);
      repr := {};
      new;
      assert Slots(0) == seq(I.SLOTS, i requires 0 <= i < I.SLOTS => if i == 0 then I.Slot(true, 0, 0, None) else I.EMPTY);
      I.BootOk(View());
    }

    /** Allocate for a user of the heap other than the task table. */
    method Take(size: nat, align: nat) returns (p: nat)
      requires Valid() && 0 < size <= FOUR_GB && Heap.PowerOfTwo(align) && align <= PAGE
      modifies this`others, pages.heap
      ensures Valid() && (View(), p) == I.Take(old(View()), size, align)
    {
      hide Slots, Heap.HeapOk, A.Linked, A.LiveHeaders, I.SysOk, Heap.Alloc, Heap.PowerOfTwo, Good;
      ghost var s := View();
      I.TakeKeeps(s, size, align);
      I.SysGood(s);
      GoodAskable(pages.heap.view, size, align);
      p := pages.heap.Kmalloc(size, align);
      assert Slots(0) == s.slots;
      if p != 0 {
        others := others + {p};
      } else {
        I.NoRoom(s, size, align);
      }
      I.SysGood(I.Take(s, size, align).0);
      assert Slots(0) == s.slots;
    }

    method FirstFree() returns (i: nat)
      requires Valid()
      ensures i == I.FreeSlot(Slots(0), 1)
    {
      hide Slots, Heap.HeapOk, I.SysOk, Good;
      i := 1;
      while i < I.SLOTS
        invariant 1 <= i <= I.SLOTS && I.FreeSlot(Slots(0), 1) == I.FreeSlot(Slots(0), i)
      {
        if !slots[i].used {
          break;
        }
        i := i + 1;
      }
    }

    /** Mark slot `i` as taken by a task with this kernel stack. */
    method Place(i: nat, stack: nat)
      requires Shape() && i < I.SLOTS
      modifies slots, this`n
      ensures Shape() && Slots(0) == old(Slots(0))[i := I.Slot(true, stack, 0, None)]
      ensures n == if stack != 0 && i >= old(n) then i + 1 else old(n)
    {
      hide Slots;
      ghost var before := Slots(0);
      slots[i] := Record(true, stack, 0, null);
      assert Slots(0) == before[i := I.Slot(true, stack, 0, None)];
      if stack != 0 && i >= n {
        n := i + 1;
      }
      assert Slots(0) == before[i := I.Slot(true, stack, 0, None)];
    }

    /** The first free slot with a kernel stack; SLOTS when there is none or no
        memory, in which case the slot stays taken. */
    method Spawn() returns (id: nat)
      requires Valid()
      modifies slots, this`n, this`others, pages.heap
      ensures Valid() && (View(), id) == I.Spawn(old(View()))
    {
      hide Slots, Heap.HeapOk, A.Linked, A.LiveHeaders, I.SysOk, I.Take, Heap.PowerOfTwo, Good, I.FreeSlot, SlotOf;
      ghost var start := View();
      I.SpawnKeeps(start);
      I.SysGood(I.Spawn(start).0);
      id := FirstFree();
      if id == I.SLOTS {
        return;
      }
      Heap.Powers();
      ghost var kept := others;
      var stack := Take(I.STACK_SIZE, 16);
      others := kept;
      Place(id, stack);
      if stack == 0 {
        I.TakeNothing(start, I.STACK_SIZE, 16);
        id := I.SLOTS;
      }
    }

    /** End task `id` and give back all it owns; task 0 and empty slots stay. */
    method Kill(id: nat)
      requires Valid()
      modifies slots, pages.heap
      ensures Valid() && View() == I.Kill(old(View()), id)
    {
      hide Slots, Heap.HeapOk, A.Linked, A.LiveHeaders, I.SysOk, FreeEach, Good, I.Belongings, OnceLive;
      if id == 0 || id >= n || id >= I.SLOTS || !slots[id].used {
        return;
      }
      ghost var s := View();
      I.CleanUpKeeps(s, id);
      I.SysGood(s);
      I.SysGood(I.CleanUp(s, id));
      CleanSlot(id);
      slots[id] := EMPTY;
      assert Slots(0) == s.slots[id := I.EMPTY];
    }

    /** Free the stacks and the tables of a slot. */
    method CleanSlot(id: nat)
      requires Valid() && id < I.SLOTS
      modifies pages.heap
      ensures pages.Valid() && Shape()
      ensures pages.World() == old(pages.World()).(heap := FreeEach(old(pages.heap.view), I.Belongings(old(Slots(0))[id])))
    {
      hide Slots, Heap.HeapOk, A.Linked, A.LiveHeaders, I.SysOk, FreeEach, Good, OnceLive;
      ghost var s := View();
      ghost var ps := I.Belongings(s.slots[id]);
      I.SysGood(s);
      I.SysOnce(s, id);
      assert ps[0..] == ps && ps[0] == slots[id].stack && ps[1] == slots[id].el1;
      FreeStep(pages.heap.view, ps, 0);
      if slots[id].stack != 0 {
        pages.heap.Kfree(slots[id].stack);
      }
      FreeStep(pages.heap.view, ps, 1);
      if slots[id].el1 != 0 {
        pages.heap.Kfree(slots[id].el1);
      }
      if slots[id].proc != null {
        assert ps[2..] == Parts(slots[id].proc.View());
        pages.FreeParts(slots[id].proc);
      } else {
        assert ps[2..] == [];
        NothingFreed(pages.heap.view);
      }
    }

    method Give(p: nat)
      requires Valid() && p in others && p in pages.heap.view.live
      modifies this`others, pages.heap
      ensures Valid() && View() == I.Give(old(View()), p)
    {
      hide Slots, Heap.HeapOk, A.Linked, A.LiveHeaders, I.SysOk, Heap.Free, Good;
      ghost var s := View();
      I.GiveKeeps(s, p);
      I.SysGood(s);
      I.SysGood(I.Give(s, p));
      pages.heap.Kfree(p);
      others := others - {p};
      assert Slots(0) == s.slots;
    }

    /** `p` is kept apart from the slots, as a table under construction is. */
    ghost predicate Aside(p: Process)
      reads this, slots, repr
      requires Shape()
    {
      Held(p) && forall i :: 0 <= i < slots.Length && slots[i].proc != null ==> Unshared(slots[i].proc, p)
    }

    /** The state with slot `id` completed by `el1` and `p`. */
    ghost function Completed(id: nat, el1: nat, p: Process, rest: set<nat>): I.Sys
      reads this, slots, repr, pages, pages.heap
      requires Shape() && Aside(p) && id < I.SLOTS
    {
      View().(slots := Slots(0)[id := Slots(0)[id].(el1 := el1, proc := Some(p.View()))], others := rest)
    }

    /** One pair: the stack of `i` goes from the table of `p`, and `el1` from the
        table of `i`. */
    method BarPair(id: nat, el1: nat, p: Process, i: nat, ghost rest: set<nat>)
      requires Shape() && Aside(p) && pages.Valid() && id < I.SLOTS && i < n && i < I.SLOTS && i != id && el1 != 0
      requires I.SysOk(Completed(id, el1, p, rest)) && slots[i].el1 != 0
      modifies pages, pages.heap, repr
      ensures Shape() && Aside(p) && pages.Valid()
      ensures I.SysOk(Completed(id, el1, p, rest)) && I.IsUser(Completed(id, el1, p, rest).slots[id])
      ensures I.BarFrom(Completed(id, el1, p, rest), id, i + 1) == I.BarFrom(old(Completed(id, el1, p, rest)), id, i)
    {
      hide Slots, Heap.HeapOk, A.Linked, A.LiveHeaders, I.SysOk, I.Bar, I.BarFrom, UnmapRange, ProcOk, Good;
      ghost var s := Completed(id, el1, p, rest);
      I.BarTurn(s, id, i);
      I.BarKeeps(s, id, i);
      BarInto(id, el1, p, i, rest);
      ghost var a := Completed(id, el1, p, rest);
      I.BarKeeps(a, i, id);
      BarOut(id, el1, p, i, rest);
    }

    /** The stack of `i` goes from the table held aside. */
    method BarInto(id: nat, el1: nat, p: Process, i: nat, ghost rest: set<nat>)
      requires Shape() && Aside(p) && pages.Valid() && id < I.SLOTS && i < I.SLOTS && i != id && el1 != 0
      requires ProcOk(pages.World(), p.View()) && I.SysOk(Completed(id, el1, p, rest))
      requires I.SysOk(I.Bar(Completed(id, el1, p, rest), id, slots[i].el1))
      modifies pages, pages.heap, p`l3Count, p.l3
      ensures Shape() && Aside(p) && pages.Valid()
      ensures Completed(id, el1, p, rest) == I.Bar(old(Completed(id, el1, p, rest)), id, slots[i].el1)
    {
      hide Slots, Heap.HeapOk, A.Linked, A.LiveHeaders, I.SysOk, UnmapRange, ProcOk, Good;
      ghost var s, was := Completed(id, el1, p, rest), Slots(0);
      I.BarIs(s, id, slots[i].el1);
      I.SysGood(I.Bar(s, id, slots[i].el1));
      pages.UnmapRange(p, slots[i].el1, I.STACK_SIZE);
      assert Slots(0) == was;
    }

    /** The new stack goes from the table of `i`. */
    method BarOut(id: nat, el1: nat, p: Process, i: nat, ghost rest: set<nat>)
      requires Shape() && Aside(p) && pages.Valid() && id < I.SLOTS && i < I.SLOTS && i != id && el1 != 0
      requires slots[i].proc != null && ProcOk(pages.World(), slots[i].proc.View()) && I.SysOk(Completed(id, el1, p, rest))
      requires I.SysOk(I.Bar(Completed(id, el1, p, rest), i, el1))
      modifies pages, pages.heap, slots[i].proc`l3Count, slots[i].proc.l3
      ensures Shape() && Aside(p) && pages.Valid()
      ensures Completed(id, el1, p, rest) == I.Bar(old(Completed(id, el1, p, rest)), i, el1)
    {
      hide Slots, Heap.HeapOk, A.Linked, A.LiveHeaders, I.SysOk, UnmapRange, ProcOk, Good;
      ghost var s, was := Completed(id, el1, p, rest), Slots(0);
      I.BarIs(s, i, el1);
      I.SysGood(I.Bar(s, i, el1));
      pages.UnmapRange(slots[i].proc, el1, I.STACK_SIZE);
      assert Slots(0) == was[i := was[i].(proc := Some(slots[i].proc.View()))];
    }

    /** Take the stacks of all other user tasks out of the new table `p`, and
        the new stack out of theirs; then complete the slot. */
    method Isolate(id: nat, el1: nat, p: Process)
      requires Shape() && Aside(p) && pages.Valid() && id < I.SLOTS && el1 != 0
      requires I.SysOk(I.Commit(View(), id, el1, p.View()))
      modifies slots, pages, pages.heap, repr, this`others
      ensures Valid() && View() == I.BarFrom(I.Commit(old(View()), id, el1, old(p.View())), id, 0)
    {
      hide Slots, Heap.HeapOk, A.Linked, A.LiveHeaders, I.SysOk, I.Bar, I.BarFrom, Good;
      ghost var start := I.Commit(View(), id, el1, p.View());
      ghost var rest := start.others;
      assert start == Completed(id, el1, p, rest);
      I.BarStep(start, id, n);
      for i := 0 to n
        invariant Shape() && Aside(p) && pages.Valid() && n <= I.SLOTS && I.SysOk(Completed(id, el1, p, rest))
        invariant I.BarFrom(Completed(id, el1, p, rest), id, i) == I.BarFrom(start, id, 0)
      {
        I.BarStep(Completed(id, el1, p, rest), id, i);
        if slots[i].el1 != 0 && i != id {
          BarPair(id, el1, p, i, rest);
        }
      }
      I.BarStep(Completed(id, el1, p, rest), id, n);
      ghost var end, was := Completed(id, el1, p, rest), Slots(0);
      slots[id] := slots[id].(el1 := el1, proc := p);
      others := rest;
      assert Slots(0) == was[id := was[id].(el1 := el1, proc := Some(p.View()))];
    }

    /** Build the table of task `id` and finish the task, or give everything back. */
    method Finish(id: nat, el1: nat) returns (done: bool)
      requires Valid() && el1 in others && 0 < id < I.SLOTS && id < n && el1 != 0
      requires slots[id].used && (CreateProc(pages.World()).1.Some? ==>
        I.SysOk(I.Commit(I.Tabled(View()).0, id, el1, I.Tabled(View()).1.value)))
      modifies this`others, this`repr, slots, pages, pages.heap, repr
      ensures Valid() && fresh(repr - old(repr))
      ensures old(el1 in I.Tabled(View()).0.others && I.SysOk(I.Tabled(View()).0))
      ensures var r := I.WithTable(I.Tabled(old(View())), id, el1);
        r.1 == (if done then id else I.SLOTS) &&
        (done ==> I.SysOk(r.0) && I.IsUser(r.0.slots[id])) &&
        View() == if done then I.BarFrom(r.0, id, 0) else r.0
    {
      hide Slots, Heap.HeapOk, A.Linked, A.LiveHeaders, I.SysOk, I.BarFrom, CreateProc, Good, I.Kill, I.Give, I.PartSet;
      ghost var before := View();
      I.TabledKeeps(before);
      I.SysGood(I.Tabled(before).0);
      I.OthersLive(I.Tabled(before).0);
      var p := pages.Create();
      assert Slots(0) == before.slots;
      if p == null {
        assert View() == I.Tabled(before).0;
        Give(el1);
        Kill(id);
        return false;
      }
      others := others + I.PartSet(p.View());
      repr := repr + {p, p.l2, p.l3};
      assert Slots(0) == before.slots;
      assert View() == I.Tabled(before).0;
      Isolate(id, el1, p);
      done := true;
    }

    /** Create a user task with a stack and a table; SLOTS when it fails. */
    method UserTaskCreate() returns (id: nat)
      requires Valid()
      modifies this`n, this`others, this`repr, slots, pages, pages.heap, repr
      ensures Valid() && (View(), id) == I.UserCreate(old(View()))
      ensures fresh(repr - old(repr))
    {
      hide Slots, Heap.HeapOk, A.Linked, A.LiveHeaders, I.SysOk, I.Take, I.Spawn, I.BarFrom, I.WithTable, I.Tabled,
        I.Commit, CreateProc, Heap.PowerOfTwo, Good, I.Give;
      ghost var start := View();
      Heap.Powers();
      I.TakeKeeps(start, I.STACK_SIZE, PAGE);
      I.PrepareKeeps(start);
      var el1 := Take(I.STACK_SIZE, PAGE);
      if el1 == 0 {
        return I.SLOTS;
      }
      I.SpawnKeeps(View());
      id := Spawn();
      I.OthersLive(View());
      if id == I.SLOTS {
        Give(el1);
        return I.SLOTS;
      }
      I.TabledKeeps(View());
      I.CommitAfter(start);
      var done := Finish(id, el1);
      if !done {
        id := I.SLOTS;
      }
    }
  }

  lemma NothingFreed(h: Heap.HeapState)
    ensures FreeEach(h, []) == h
  {
  }
}
