/** What one allocation does to the whole heap, in addresses and sizes. */
module HeapEffects {
  import opened Heap

  /** `m` is the least multiple of `a` not below `x`. */
  predicate LeastMultiple(m: nat, x: nat, a: nat)
    requires a > 0
  {
    m % a == 0 && x <= m < x + a
  }

  /** The size of a new block: header and request in whole multiples of the
      alignment, and at least 32 bytes. */
  lemma TotalIs(size: nat, align: nat, m: nat)
    requires 0 < size && PowerOfTwo(align)
    requires var a := if align < 16 then 16 else align;
      16 + size + a - 1 < 0x1_0000_0000_0000_0000 && LeastMultiple(m, 16 + size, a)
    ensures Total(size, align) == if m < 32 then 32 else m
  {
    hide Floor, Wrap, PowerOfTwo, AlignUp;
    var a := Rounded(align);
    AlignUpIs(16 + size, a);
    NextMultiple(m, AlignUp(16 + size, a), a);
    NextMultiple(AlignUp(16 + size, a), m, a);
  }

  /** A free block serves a request if it is large enough and its memory, behind
      the 16 bytes of header, is aligned as asked; no other reason to refuse one
      exists. */
  predicate Serves(b: Block, total: nat, a: nat)
    requires a > 0
  {
    b.size >= total && (b.addr + 16) % a == 0
  }

  /** `i` is the first free block that serves, |h.free| when none does. */
  ghost predicate FirstServing(h: HeapState, total: nat, a: nat, i: nat)
    requires a > 0
  {
    i <= |h.free| && (forall k :: 0 <= k < i ==> !Serves(h.free[k], total, a)) &&
    (i < |h.free| ==> Serves(h.free[i], total, a))
  }

  /** An allocation takes the first free block that serves, whole, and leaves the
      list otherwise in order; when none serves it takes the least aligned
      address with room for a header behind the part handed out so far, if the
      request ends inside the heap, and else fails without a trace. */
  lemma {:induction false} AllocEffect(h: HeapState, size: nat, align: nat, i: nat, p: nat)
    requires BlocksOk(h) && Askable(h, size, align)
    requires var a := if align < 16 then 16 else align;
      FirstServing(h, Total(size, align), a, i) && LeastMultiple(p, h.ptr + 16, a)
    ensures var total := Total(size, align);
      Alloc(h, size, align) ==
        if i < |h.free| then
          var b := h.free[i];
          (h.(free := h.free[..i] + h.free[i + 1..], live := h.live[b.addr + 16 := Grant(b, size, align)],
              used := h.used + b.size), b.addr + 16)
        else if p + size > h.end then (h, 0)
        else
          (h.(ptr := p - 16 + total, live := h.live[p := Grant(Block(p - 16, total), size, align)],
              used := h.used + total, gap := h.gap + (p - 16 - h.ptr)), p)
  {
    hide PowerOfTwo, BumpAt, Total, FirstFit, Wrap, AlignUp, Alloc;
    var a := Rounded(align);
    AllocCases(h, size, align);
    SameFit(h, Total(size, align), a, i) by { RoundedDivides(align); }
    BumpGives(h, size, align);
    NextMultiple(p, BumpAt(h.ptr, a), a);
    NextMultiple(BumpAt(h.ptr, a), p, a);
  }

  lemma {:induction false} SameFit(h: HeapState, total: nat, a: nat, i: nat)
    requires BlocksOk(h) && a >= 16 && FirstServing(h, total, a, i)
    ensures FirstFit(h.free, total, a) == i
  {
    hide FirstFit;
    FirstFitIs(h.free, total, a);
    forall k | 0 <= k < |h.free| ensures Fits(h.free[k], total, a) <==> Serves(h.free[k], total, a) {
      assert BlockOk(h, h.free[k]);
    }
  }

  /** Freeing puts the whole block in front of the free list and forgets it. */
  lemma FreeEffect(h: HeapState, p: nat)
    requires HeapOk(h) && p in h.live
    ensures var g := Free(h, p);
      g == h.(free := [h.live[p].block] + h.free, live := h.live - {p}, used := g.used) &&
      g.used + h.live[p].block.size == h.used
  {
    hide BlocksOk, Disjoint, FreeBytes;
    LiveBytesWithout(h.live, p);
  }
}
