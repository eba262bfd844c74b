/** The heap as code: block headers in memory, a free list threaded through
    them, and a bump pointer, proved to compute the heap model. */
module Allocator {
  import opened Heap

  /** What memory holds at the start of a block. */
  datatype Header = Header(size: nat, next: nat)

  /** Address of free block `k`; 0 past the end of the list. */
  function Node(free: seq<Block>, k: nat): nat {
    if k < |free| then free[k].addr else 0
  }

  /** The headers thread the list `free` from `head` on. */
  ghost predicate Linked(headers: map<nat, Header>, head: nat, free: seq<Block>) {
    head == Node(free, 0) &&
    forall k: nat :: k < |free| ==>
      free[k].addr != 0 && free[k].addr in headers &&
      headers[free[k].addr] == Header(free[k].size, Node(free, k + 1))
  }

  ghost predicate LiveHeaders(headers: map<nat, Header>, live: map<nat, Grant>) {
    forall p :: p in live ==>
      live[p].block.addr in headers && headers[live[p].block.addr].size == live[p].block.size
  }

  /** Blocks at distinct addresses. */
  ghost predicate Distinct(free: seq<Block>) {
    forall i: nat, j: nat :: i < j < |free| ==> free[i].addr != free[j].addr
  }

  /** Memory after taking `blk`, whose predecessor is `prev`, off the list. */
  function Spliced(headers: map<nat, Header>, prev: nat, blk: nat): map<nat, Header>
    requires blk in headers && (prev == 0 || prev in headers)
  {
    var hs := if prev == 0 then headers else headers[prev := headers[prev].(next := headers[blk].next)];
    hs[blk := Header(hs[blk].size, 0)]
  }

  lemma SplicedSizes(headers: map<nat, Header>, prev: nat, blk: nat)
    requires blk in headers && (prev == 0 || prev in headers)
    ensures var hs := Spliced(headers, prev, blk);
      forall a :: a in headers ==> a in hs && hs[a].size == headers[a].size
  {
  }

  ghost function Before(free: seq<Block>, i: nat): nat
    requires i <= |free|
  {
    if i == 0 then 0 else free[i - 1].addr
  }

  lemma LinkedAt(headers: map<nat, Header>, head: nat, free: seq<Block>, i: nat)
    requires Linked(headers, head, free) && i < |free|
    ensures free[i].addr != 0 && free[i].addr in headers
    ensures headers[free[i].addr] == Header(free[i].size, Node(free, i + 1))
    ensures i > 0 ==> Before(free, i) != 0 && Before(free, i) in headers
    ensures i == 0 ==> Before(free, i) == 0
  {
  }

  /** Taking node `i` out of the list by redirecting its predecessor. */
  lemma Unlinked(headers: map<nat, Header>, head: nat, free: seq<Block>, i: nat)
    requires Linked(headers, head, free) && Distinct(free) && i < |free|
    requires free[i].addr in headers && (Before(free, i) == 0 || Before(free, i) in headers)
    ensures Linked(Spliced(headers, Before(free, i), free[i].addr), if i == 0 then Node(free, 1) else head, Without(free, i))
  {
    var rest := Without(free, i);
    forall k: nat | k < |rest| ensures rest[k] == free[if k < i then k else k + 1] {
      WithoutAt(free, i, k);
    }
    hide Without;
  }

  lemma FreeDistinct(h: HeapState)
    requires HeapOk(h)
    ensures Distinct(h.free)
    ensures forall p, i: nat :: p in h.live && i < |h.free| ==> h.live[p].block.addr != h.free[i].addr
  {
    hide LiveBytes, FreeBytes;
    forall i: nat, j: nat | i < j < |h.free| ensures h.free[i].addr != h.free[j].addr {
      assert BlockOk(h, h.free[i]) && BlockOk(h, h.free[j]) && Apart(h.free[i], h.free[j]);
    }
    forall p, i: nat | p in h.live && i < |h.free| ensures h.live[p].block.addr != h.free[i].addr {
      assert GrantOk(h, p, h.live[p]) && BlockOk(h, h.free[i]) && Apart(h.live[p].block, h.free[i]);
    }
  }

  lemma FirstFitFrom(free: seq<Block>, i: nat, total: nat, align: nat)
    requires align > 0 && i <= |free|
    requires forall k :: 0 <= k < i ==> !Fits(free[k], total, align)
    ensures FirstFit(free, total, align) == i + FirstFit(free[i..], total, align)
  {
    if i > 0 {
      FirstFitFrom(free[1..], i - 1, total, align);
      assert free[1..][i - 1..] == free[i..];
    } else {
      assert free[0..] == free;
    }
  }

  /** Live blocks keep their headers when only links change. */
  lemma LiveKept(headers: map<nat, Header>, hs: map<nat, Header>, live: map<nat, Grant>, p: nat, g: Grant)
    requires LiveHeaders(headers, live)
    requires forall a :: a in headers ==> a in hs && hs[a].size == headers[a].size
    requires g.block.addr in hs && hs[g.block.addr].size == g.block.size
    ensures LiveHeaders(hs, live[p := g])
  {
  }

  class Allocator {
    var headers: map<nat, Header>
    var heapPtr: nat
    const heapEnd: nat
    var freeList: nat
    var totalAllocated: nat
    var freeBlockCount: nat
    ghost var view: HeapState

    ghost predicate Valid()
      reads this
    {
      HeapOk(view) && heapPtr == view.ptr && heapEnd == view.end &&
      Linked(headers, freeList, view.free) && LiveHeaders(headers, view.live) &&
      totalAllocated == view.used && freeBlockCount == |view.free|
    }

    constructor (start: nat, end: nat)
      requires 0 < start <= end < W64
      ensures Valid() && view == HeapState(start, start, end, [], map[], 0, 0)
    {
      headers := map[];
      heapPtr := start;
      heapEnd := end;
      freeList := 0;
      totalAllocated := 0;
      freeBlockCount := 0;
      view := HeapState(start, start, end, [], map[], 0, 0);
      new;
      FreshOk(view);
    }

    /** First fit over the free list: the first block that fits, with the node
        before it; 0 when none does. */
    method Search(total: nat, align: nat) returns (prev: nat, blk: nat, ghost i: nat)
      requires Valid() && align > 0
      ensures i == FirstFit(view.free, total, align) && (blk == 0 <==> i == |view.free|)
      ensures blk == Node(view.free, FirstFit(view.free, total, align))
      ensures prev == Before(view.free, FirstFit(view.free, total, align))
    {
      hide HeapOk, Linked, LiveHeaders, Without, Distinct, Askable, Total, BumpAt, FirstFit, Alloc, Wrap, FreeBytes, Apart;
      prev := 0;
      blk := freeList;
      i := 0;
      ghost var free := view.free;
      assert blk == Node(free, 0) by { assert Linked(headers, freeList, free); HeadIs(headers, freeList, free); }
      while blk != 0
        invariant i <= |free| && blk == Node(free, i) && prev == Before(free, i)
        invariant forall k :: 0 <= k < i ==> !Fits(free[k], total, align)
        decreases |free| - i
      {
        LinkedAt(headers, freeList, free, i);
        var user := blk + HEADER;
        if headers[blk].size >= total && (align == 16 || user % align == 0) {
          FirstFitAt(free, i, total, align);
          return;
        }
        assert !Fits(free[i], total, align);
        prev := blk;
        blk := headers[blk].next;
        i := i + 1;
      }
      if i < |free| {
        LinkedAt(headers, freeList, free, i);
        assert false;
      }
      FirstFitAt(free, i, total, align);
    }

    /** Take the block found by the search off the list. */
    method Unlink(prev: nat, blk: nat, ghost i: nat, ghost size: nat, ghost align: nat)
      requires Valid() && i < |view.free| && blk == view.free[i].addr && align > 0
      requires prev == Before(view.free, i)
      requires view.free[i].size >= HEADER + size && User(view.free[i]) % align == 0
      modifies this
      ensures Valid() && view == Reuse(old(view), i, size, align)
    {
      hide HeapOk, Linked, LiveHeaders, Without, Fits, Distinct, Askable, Total, BumpAt, FirstFit, Alloc, Wrap, FreeBytes, Apart;
      ghost var free := view.free;
      ghost var b := free[i];
      LinkedAt(headers, freeList, free, i);
      ReuseKeeps(view, i, size, align);
      FreeDistinct(view);
      Unlinked(headers, freeList, free, i);
      SplicedSizes(headers, prev, blk);
      LiveKept(headers, Spliced(headers, prev, blk), view.live, User(b), Grant(b, size, align));
      ghost var hs := Spliced(headers, prev, blk);
      var next := headers[blk].next;
      if prev == 0 {
        freeList := next;
      } else {
        headers := headers[prev := headers[prev].(next := next)];
      }
      freeBlockCount := freeBlockCount - 1;
      headers := headers[blk := Header(headers[blk].size, 0)];
      totalAllocated := totalAllocated + headers[blk].size;
      view := Reuse(view, i, size, align);
      assert headers == hs;
    }

    /** Allocate `size` bytes at a multiple of `align`; 0 when there is no room. */
    method Kmalloc(size: nat, align: nat) returns (p: nat)
      requires Valid() && Askable(view, size, align)
      modifies this
      ensures Valid() && (view, p) == Alloc(old(view), size, align)
    {
      hide HeapOk, Linked, LiveHeaders, Without, Fits, Distinct, Askable, Total, BumpAt, FirstFit, Alloc, Wrap, FreeBytes, Apart;
      var a := Rounded(align);
      var total := Total(size, align);
      CasesHere(view, size, align);
      AllocKeeps(view, size, align);
      var prev, blk, i := Search(total, a);
      if blk != 0 {
        Unlink(prev, blk, i, size, align);
        return blk + HEADER;
      }
      var addr := BumpAt(heapPtr, a);
      if Wrap(addr + size) > heapEnd {
        return 0;
      }
      Bump(addr - HEADER, total, size, align);
      p := addr;
    }

    /** Hand out the block at `block` from fresh memory. */
    method Bump(block: nat, total: nat, ghost size: nat, ghost align: nat)
      requires Valid() && align > 0 && block >= heapPtr && block % 16 == 0
      requires total >= HEADER + size && total >= MIN_BLOCK && (block + HEADER) % align == 0 && block + total < W64
      modifies this
      ensures Valid() && view == Extend(old(view), Block(block, total), size, align)
    {
      hide HeapOk, Linked, LiveHeaders, Without, Fits, Distinct, Askable, Total, BumpAt, FirstFit, Alloc, Wrap, FreeBytes, Apart;
      ghost var b := Block(block, total);
      ExtendKeeps(view, b, size, align);
      BumpLinks(headers, freeList, view, b, size, align);
      headers := headers[block := Header(total, 0)];
      heapPtr := block + total;
      totalAllocated := totalAllocated + total;
      view := Extend(view, b, size, align);
    }

    /** Free a live block; freeing 0 does nothing. */
    method Kfree(p: nat)
      requires Valid() && (p == 0 || p in view.live)
      modifies this
      ensures Valid() && view == if p == 0 then old(view) else Free(old(view), p)
    {
      hide HeapOk, Linked, LiveHeaders, Without, Fits, Distinct, Askable, Total, BumpAt, FirstFit, Alloc, Wrap, FreeBytes, Apart;
      if p == 0 {
        return;
      }
      FreeKeeps(view, p);
      LiveHeader(headers, view, p);
      FreeDistinct(view);
      FreeLinks(headers, freeList, view, p);
      var blk := p - HEADER;
      totalAllocated := totalAllocated - headers[blk].size;
      headers := headers[blk := headers[blk].(next := freeList)];
      freeList := blk;
      freeBlockCount := freeBlockCount + 1;
      view := Free(view, p);
    }

    /** Bytes not in live blocks, as the program counts them. */
    method FreeCount() returns (total: nat)
      requires Valid()
      ensures total == FreeTotal(view)
    {
      hide HeapOk, Linked, LiveHeaders, Without, Fits, Distinct, Askable, Total, BumpAt, FirstFit, Alloc, Wrap, FreeBytes, Apart;
      total := Wrap(heapEnd + W64 - Wrap(heapPtr));
      ghost var free := view.free;
      var blk := freeList;
      ghost var i: nat := 0;
      HeadIs(headers, freeList, free);
      ghost var virgin := total;
      assert free[..0] == [];
      assert FreeBytes(free[..0]) == 0 by { NoBytes(); }
      while blk != 0
        invariant i <= |free| && blk == Node(free, i)
        invariant total == Wrap(virgin + FreeBytes(free[..i]))
        decreases |free| - i
      {
        LinkedAt(headers, freeList, free, i);
        BytesUpTo(free, i);
        WrapTwice(virgin + FreeBytes(free[..i]), free[i].size);
        total := Wrap(total + headers[blk].size);
        blk := headers[blk].next;
        i := i + 1;
      }
      if i < |free| {
        LinkedAt(headers, freeList, free, i);
        assert false;
      }
      assert free[..i] == free;
    }
  }

  lemma NoBytes()
    ensures FreeBytes([]) == 0
  {
  }

  lemma {:induction false} BytesUpTo(free: seq<Block>, i: nat)
    requires i < |free|
    ensures FreeBytes(free[..i + 1]) == FreeBytes(free[..i]) + free[i].size
  {
    if i > 0 {
      BytesUpTo(free[1..], i - 1);
      assert free[1..][..i] == free[..i + 1][1..];
      assert free[1..][..i - 1] == free[..i][1..];
    } else {
      assert free[..1] == [free[0]];
      assert free[..1][1..] == [];
      assert FreeBytes([]) == 0;
    }
  }

  lemma WrapTwice(x: nat, y: nat)
    ensures Wrap(Wrap(x) + y) == Wrap(x + y)
  {
    assert x == x / W64 * W64 + Wrap(x);
  }

  lemma HeadIs(headers: map<nat, Header>, head: nat, free: seq<Block>)
    requires Linked(headers, head, free)
    ensures head == Node(free, 0)
  {
  }

  /** A header written in fresh memory touches no listed or live block. */
  lemma BumpLinks(headers: map<nat, Header>, head: nat, h: HeapState, b: Block, size: nat, align: nat)
    requires HeapOk(h) && Linked(headers, head, h.free) && LiveHeaders(headers, h.live) && b.addr >= h.ptr
    ensures var hs := headers[b.addr := Header(b.size, 0)];
      Linked(hs, head, h.free) && LiveHeaders(hs, Extend(h, b, size, align).live)
  {
    hide LiveBytes, FreeBytes;
    forall i: nat | i < |h.free| ensures h.free[i].addr != b.addr {
      assert BlockOk(h, h.free[i]);
    }
    forall p | p in h.live ensures h.live[p].block.addr != b.addr {
      assert GrantOk(h, p, h.live[p]);
    }
  }

  lemma CasesHere(h: HeapState, size: nat, align: nat)
    requires HeapOk(h) && Askable(h, size, align)
    ensures var a, t := Rounded(align), Total(size, align);
      var i := FirstFit(h.free, t, a);
      var p := BumpAt(h.ptr, a);
      p >= HEADER && h.ptr + HEADER <= p && p % 16 == 0 && align > 0 && p % align == 0 &&
      (i < |h.free| ==> h.free[i].size >= HEADER + size && User(h.free[i]) % align == 0) &&
      t >= HEADER + size && MIN_BLOCK <= t && p + size < W64 && (p + size <= h.end ==> p - HEADER + t < W64) &&
      Alloc(h, size, align) ==
        if i < |h.free| then (Reuse(h, i, size, align), User(h.free[i]))
        else if p + size > h.end then (h, 0)
        else (Extend(h, Block(p - HEADER, t), size, align), p)
  {
    hide PowerOfTwo, BumpAt, Total, FirstFit, Wrap, Alloc, Disjoint, Accounted;
    AllocCases(h, size, align);
    BumpGives(h, size, align);
    if FirstFit(h.free, Total(size, align), Rounded(align)) < |h.free| {
      FitUser(h, size, align);
    }
  }

  /** The header before a live pointer is that of its block. */
  lemma LiveHeader(headers: map<nat, Header>, h: HeapState, p: nat)
    requires HeapOk(h) && LiveHeaders(headers, h.live) && p in h.live
    ensures p > HEADER && p - HEADER == h.live[p].block.addr && p - HEADER in headers
    ensures headers[p - HEADER].size == h.live[p].block.size && h.used >= h.live[p].block.size
  {
    assert GrantOk(h, p, h.live[p]);
    LiveBytesWithout(h.live, p);
    hide LiveBytes, FreeBytes, Disjoint;
  }

  /** Freeing puts the block in front of the list. */
  lemma FreeLinks(headers: map<nat, Header>, head: nat, h: HeapState, p: nat)
    requires Linked(headers, head, h.free) && LiveHeaders(headers, h.live) && p in h.live
    requires h.live[p].block.addr in headers && h.live[p].block.addr != 0
    requires headers[h.live[p].block.addr].size == h.live[p].block.size
    requires forall i: nat :: i < |h.free| ==> h.live[p].block.addr != h.free[i].addr
    ensures var blk := h.live[p].block.addr;
      var hs := headers[blk := headers[blk].(next := head)];
      Linked(hs, blk, Free(h, p).free) && LiveHeaders(hs, Free(h, p).live)
  {
    var blk := h.live[p].block.addr;
    var hs := headers[blk := headers[blk].(next := head)];
    var free := Free(h, p).free;
    forall k: nat | k < |free|
      ensures free[k].addr != 0 && free[k].addr in hs && hs[free[k].addr] == Header(free[k].size, Node(free, k + 1))
    {
      if k > 0 {
        assert free[k] == h.free[k - 1];
        assert Node(free, k + 1) == Node(h.free, k);
      }
    }
  }

  lemma FirstFitAt(free: seq<Block>, i: nat, total: nat, align: nat)
    requires align > 0 && i <= |free|
    requires forall k :: 0 <= k < i ==> !Fits(free[k], total, align)
    requires i == |free| || Fits(free[i], total, align)
    ensures FirstFit(free, total, align) == i
  {
    FirstFitFrom(free, i, total, align);
    FirstFitHere(free[i..], total, align);
  }

  lemma FirstFitHere(free: seq<Block>, total: nat, align: nat)
    requires align > 0
    ensures free == [] ==> FirstFit(free, total, align) == 0
    ensures free != [] && Fits(free[0], total, align) ==> FirstFit(free, total, align) == 0
  {
  }
}
