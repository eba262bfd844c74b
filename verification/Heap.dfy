/** The kernel heap: first fit over a free list, then bump allocation.  Sizes
    and addresses are 64-bit words, so sums wrap. */
module Heap {

  const W64: nat := 0x1_0000_0000_0000_0000
  const HEADER: nat := 16
  const MIN_BLOCK: nat := 32

  /** What the allocator demands of an alignment, besides fitting a word. */
  predicate PowerOfTwo(a: nat) {
    a == 1 || (a > 1 && a % 2 == 0 && PowerOfTwo(a / 2))
  }

  /** A word after a sum that may carry out of it. */
  function Wrap(x: nat): (r: nat)
    ensures r < W64 && (x < W64 ==> r == x) && (W64 <= x < 2 * W64 ==> r == x - W64)
  {
    x % W64
  }

  /** The greatest multiple of `a` up to `x`. */
  function Floor(x: nat, a: nat): (r: nat)
    requires a > 0
    ensures r <= x < r + a
  {
    x - x % a
  }

  /** Clearing the low bits of `v + a - 1`, for a power of two `a`. */
  function AlignUp(v: nat, a: nat): nat
    requires a > 0
  {
    Floor(Wrap(v + a - 1), a)
  }

  lemma {:induction false} MultipleMod(q: nat, a: nat)
    requires a > 0
    ensures q * a % a == 0
  {
    QuotientOf(q, 0, a);
  }

  /** Quotient and remainder are unique. */
  lemma QuotientOf(q: nat, r: nat, a: nat)
    requires r < a
    ensures (q * a + r) / a == q && (q * a + r) % a == r
  {
    var x := q * a + r;
    var p := x / a;
    assert x == p * a + x % a;
    assert (p - q) * a == r - x % a;
    assert p == q by {
      Bounded(p - q, a, r - x % a);
    }
  }

  lemma Bounded(d: int, a: nat, e: int)
    requires d * a == e && 0 - (a as int) < e < a
    ensures d == 0
  {
    if d >= 1 {
      Times(d - 1, a);
    } else if d <= -1 {
      Times(-d - 1, a);
    }
  }

  lemma Times(d: int, a: nat)
    requires d >= 0
    ensures (d + 1) * a >= a
  {
  }

  lemma FloorIs(x: nat, a: nat)
    requires a > 0
    ensures Floor(x, a) % a == 0
    ensures forall m: nat :: m % a == 0 && m <= x ==> m <= Floor(x, a)
  {
    var q := x / a;
    assert x == q * a + x % a;
    MultipleMod(q, a);
    forall m: nat | m % a == 0 && m <= x ensures m <= Floor(x, a) {
      NextMultiple(Floor(x, a), m, a);
    }
  }

  /** Multiples of `a` less than `a` apart are the same. */
  lemma NextMultiple(k: nat, m: nat, a: nat)
    requires a > 0 && k % a == 0 && m % a == 0
    ensures m <= k || m >= k + a
  {
    var p, q := k / a, m / a;
    assert k == p * a && m == q * a;
    if q > p {
      Times(q - p - 1, a);
      assert (q - p) * a == m - k;
    } else {
      Order(q, p, a);
    }
  }

  lemma Order(q: nat, p: nat, a: nat)
    requires q <= p
    ensures q * a <= p * a
  {
  }

  /** Without wrap-around, rounding up gives the least multiple of `a` from `v`
      on. */
  lemma AlignUpIs(v: nat, a: nat)
    requires a > 0 && v + a - 1 < W64
    ensures var r := AlignUp(v, a); r % a == 0 && v <= r < v + a
    ensures forall m: nat :: m % a == 0 && m >= v ==> AlignUp(v, a) <= m
  {
    hide Floor, Wrap;
    FloorIs(v + a - 1, a);
    forall m: nat | m % a == 0 && m >= v ensures AlignUp(v, a) <= m {
      NextMultiple(m, AlignUp(v, a), a);
    }
  }

  // ----- alignments -----

  function Rounded(align: nat): (a: nat)
    ensures a >= 16 && a >= align
  {
    if align < 16 then 16 else align
  }

  lemma {:induction false} PowerDivides(a: nat, b: nat)
    requires PowerOfTwo(a) && PowerOfTwo(b) && a <= b
    ensures a > 0 && b % a == 0
  {
    if a > 1 {
      PowerDivides(a / 2, b / 2);
      var q := b / 2 / (a / 2);
      assert b / 2 == q * (a / 2);
      assert b == q * a;
      MultipleMod(q, a);
    }
  }

  lemma Powers()
    ensures PowerOfTwo(16) && PowerOfTwo(64) && PowerOfTwo(4096)
  {
    assert PowerOfTwo(4);
    assert PowerOfTwo(16);
    assert PowerOfTwo(64);
    assert PowerOfTwo(256);
    assert PowerOfTwo(1024);
  }

  /** The alignment used is at least 16, and a multiple of both 16 and the one
      asked for. */
  lemma RoundedDivides(align: nat)
    requires PowerOfTwo(align)
    ensures var a := Rounded(align); align > 0 && a % 16 == 0 && a % align == 0 && (a >= 64 ==> a % 64 == 0)
  {
    Powers();
    if align <= 16 {
      PowerDivides(align, 16);
    } else {
      PowerDivides(16, align);
      PowerDivides(align, align);
      if align >= 64 {
        PowerDivides(64, align);
      }
    }
  }

  lemma DividesThrough(x: nat, a: nat, b: nat)
    requires a > 0 && b > 0 && x % a == 0 && a % b == 0
    ensures x % b == 0
  {
    var p, q := x / a, a / b;
    assert x == p * a && a == q * b;
    assert x == (p * q) * b by {
      assert p * (q * b) == (p * q) * b;
    }
    MultipleMod(p * q, b);
  }

  // ----- state -----

  /** A block with its header; user memory starts 16 bytes in. */
  datatype Block = Block(addr: nat, size: nat)

  /** A live block with the size and alignment it was asked for. */
  datatype Grant = Grant(block: Block, asked: nat, align: nat)

  datatype HeapState = HeapState(
    start: nat,
    ptr: nat,                    // end of the part handed out so far
    end: nat,
    free: seq<Block>,            // free list, first block first
    live: map<nat, Grant>,       // by user address
    used: nat,                   // total size of live blocks
    gap: nat)                    // bytes skipped for alignment so far

  function User(b: Block): nat {
    b.addr + HEADER
  }

  predicate Apart(b: Block, c: Block) {
    b.addr + b.size <= c.addr || c.addr + c.size <= b.addr
  }

  function Total(size: nat, align: nat): nat {
    var t := AlignUp(Wrap(HEADER + size), Rounded(align));
    if t < MIN_BLOCK then MIN_BLOCK else t
  }

  predicate Fits(b: Block, total: nat, align: nat)
    requires align > 0
  {
    b.size >= total && (align == 16 || User(b) % align == 0)
  }

  /** Index of the first block that fits; the length when none does. */
  function FirstFit(free: seq<Block>, total: nat, align: nat): (i: nat)
    requires align > 0
    ensures i <= |free|
  {
    if free == [] || Fits(free[0], total, align) then 0 else 1 + FirstFit(free[1..], total, align)
  }

  /** The user address bump allocation gives: rounded, moved past the room for
      a header, and rounded again. */
  function BumpAt(ptr: nat, align: nat): nat
    requires align > 0
  {
    var first := Wrap(AlignUp(ptr, align) + W64 - HEADER);
    var block := if first < ptr then ptr else first;
    AlignUp(Wrap(block + HEADER), align)
  }

  function Without(free: seq<Block>, i: nat): (r: seq<Block>)
    requires i < |free|
    ensures |r| == |free| - 1
  {
    free[..i] + free[i + 1..]
  }

  /** Allocate `size` bytes; the address is 0 when memory has run out. */
  function Alloc(h: HeapState, size: nat, align: nat): (HeapState, nat) {
    var a := Rounded(align);
    var total := Total(size, align);
    var i := FirstFit(h.free, total, a);
    if i < |h.free| then
      var b := h.free[i];
      (h.(free := Without(h.free, i), live := h.live[User(b) := Grant(b, size, align)], used := h.used + b.size),
       User(b))
    else
      var p := BumpAt(h.ptr, a);
      if Wrap(p + size) > h.end then (h, 0)
      else
        var b := Block(Wrap(p + W64 - HEADER), total);
        (h.(ptr := Wrap(b.addr + total), live := h.live[p := Grant(b, size, align)], used := h.used + total,
            gap := h.gap + if b.addr > h.ptr then b.addr - h.ptr else 0), p)
  }

  /** Freeing the live block at user address `p`. */
  function Free(h: HeapState, p: nat): HeapState
    requires p in h.live
  {
    var b := h.live[p].block;
    h.(free := [b] + h.free, live := h.live - {p}, used := if h.used >= b.size then h.used - b.size else 0)
  }

  // ----- sums -----

  function FreeBytes(free: seq<Block>): nat {
    if free == [] then 0 else free[0].size + FreeBytes(free[1..])
  }

  ghost function LiveBytes(live: map<nat, Grant>): nat {
    if live == map[] then 0
    else
      var p :| p in live;
      live[p].block.size + LiveBytes(live - {p})
  }

  lemma {:induction false} LiveBytesWithout(live: map<nat, Grant>, p: nat)
    requires p in live
    ensures LiveBytes(live) == live[p].block.size + LiveBytes(live - {p})
    decreases live
  {
    var q :| q in live && LiveBytes(live) == live[q].block.size + LiveBytes(live - {q});
    if p != q {
      LiveBytesWithout(live - {q}, p);
      LiveBytesWithout(live - {p}, q);
      assert live - {q} - {p} == live - {p} - {q};
    }
  }

  lemma LiveBytesWith(live: map<nat, Grant>, p: nat, g: Grant)
    requires p !in live
    ensures LiveBytes(live[p := g]) == g.block.size + LiveBytes(live)
  {
    LiveBytesWithout(live[p := g], p);
    assert live[p := g] - {p} == live;
  }

  lemma {:induction false} FreeBytesWithout(free: seq<Block>, i: nat)
    requires i < |free|
    ensures FreeBytes(free) == free[i].size + FreeBytes(Without(free, i))
    decreases i
  {
    if i == 0 {
      assert Without(free, 0) == free[1..];
    } else {
      FreeBytesWithout(free[1..], i - 1);
      assert Without(free, i) == [free[0]] + Without(free[1..], i - 1);
      assert Without(free, i)[1..] == Without(free[1..], i - 1);
    }
  }

  // ----- the invariant -----

  predicate BlockOk(h: HeapState, b: Block) {
    h.start <= b.addr && b.addr + b.size <= h.ptr && b.addr % 16 == 0 && b.size >= MIN_BLOCK
  }

  ghost predicate GrantOk(h: HeapState, p: nat, g: Grant) {
    BlockOk(h, g.block) && p == User(g.block) && HEADER + g.asked <= g.block.size &&
    g.align > 0 && p % g.align == 0
  }

  ghost predicate BlocksOk(h: HeapState) {
    0 < h.start <= h.ptr && h.ptr < W64 && h.end < W64 &&
    (forall p :: p in h.live ==> GrantOk(h, p, h.live[p])) &&
    (forall i :: 0 <= i < |h.free| ==> BlockOk(h, h.free[i]))
  }

  /** Live and free blocks are pairwise disjoint; in particular no block is on
      the free list twice, or both free and live. */
  ghost predicate Disjoint(h: HeapState) {
    (forall p, q :: p in h.live && q in h.live && p != q ==> Apart(h.live[p].block, h.live[q].block)) &&
    (forall p, i :: p in h.live && 0 <= i < |h.free| ==> Apart(h.live[p].block, h.free[i])) &&
    (forall i, j :: 0 <= i < j < |h.free| ==> Apart(h.free[i], h.free[j]))
  }

  /** Live bytes, free bytes and alignment gaps make up the part handed out. */
  ghost predicate Accounted(h: HeapState) {
    h.used == LiveBytes(h.live) && h.start + h.gap + h.used + FreeBytes(h.free) == h.ptr
  }

  ghost predicate HeapOk(h: HeapState) {
    BlocksOk(h) && Disjoint(h) && Accounted(h)
  }

  /** What the caller may ask for: a power of two, some bytes, and no sum that
      leaves 64 bits. */
  ghost predicate Askable(h: HeapState, size: nat, align: nat) {
    size > 0 && PowerOfTwo(align) && h.ptr + size + 2 * Rounded(align) + HEADER < W64 && h.end + Rounded(align) < W64
  }

  // ----- lemmas -----

  lemma {:induction false} FirstFitIs(free: seq<Block>, total: nat, align: nat)
    requires align > 0
    ensures var i := FirstFit(free, total, align);
      (i < |free| ==> Fits(free[i], total, align)) && forall k :: 0 <= k < i ==> !Fits(free[k], total, align)
  {
    if free != [] && !Fits(free[0], total, align) {
      FirstFitIs(free[1..], total, align);
      forall k | 0 <= k < FirstFit(free, total, align) ensures !Fits(free[k], total, align) {
        if k > 0 {
          assert free[k] == free[1..][k - 1];
        }
      }
    }
  }

  /** Bump allocation gives the least aligned address that leaves room for a
      header, however it gets there. */
  lemma BumpIs(ptr: nat, align: nat)
    requires ptr > 0 && align >= 16 && ptr + HEADER + 2 * align < W64
    ensures BumpAt(ptr, align) == AlignUp(ptr + HEADER, align)
    ensures var p := BumpAt(ptr, align); p % align == 0 && ptr + HEADER <= p < ptr + HEADER + align
  {
    hide AlignUp, Wrap;
    AlignUpIs(ptr, align);
    AlignUpIs(ptr + HEADER, align);
    var up := AlignUp(ptr, align);
    NextMultiple(0, up, align);
    if up - HEADER >= ptr {
      AlignUpIs(up, align);
      NextMultiple(up, AlignUp(ptr + HEADER, align), align);
      NextMultiple(AlignUp(ptr + HEADER, align), up, align);
    }
  }

  /** When the sum wraps, the block is smaller than what it should hold. */
  lemma TotalTooSmall(size: nat, a: nat)
    requires 0 < size < W64 && 16 <= a < W64 && (a >= 64 ==> a % 64 == 0) && HEADER + size + a - 1 >= W64
    ensures AlignUp(Wrap(HEADER + size), a) < HEADER + size && MIN_BLOCK < HEADER + size
  {
    hide Floor, Wrap;
    assert a <= W64 - 64 by {
      if a >= 64 { assert W64 % 64 == 0; }
    }
    var s := Wrap(HEADER + size);
    assert AlignUp(s, a) <= Wrap(s + a - 1);
  }

  lemma TotalEnough(size: nat, a: nat)
    requires a >= 16 && a % 16 == 0 && HEADER + size + a - 1 < W64
    ensures var t := AlignUp(Wrap(HEADER + size), a); t % 16 == 0 && HEADER + size <= t < HEADER + size + a
  {
    hide Floor, AlignUp;
    AlignUpIs(HEADER + size, a);
    DividesThrough(AlignUp(HEADER + size, a), a, 16);
  }

  /** Without wrap-around, and only then, a block holds its header and the
      bytes asked for. */
  lemma TotalHolds(size: nat, align: nat)
    requires 0 < size < W64 && PowerOfTwo(align) && align < W64
    ensures Total(size, align) >= HEADER + size <==> HEADER + size + Rounded(align) - 1 < W64
    ensures HEADER + size + Rounded(align) - 1 < W64 ==>
      (Total(size, align) % 16 == 0 && Total(size, align) < HEADER + size + Rounded(align))
  {
    hide Floor, Wrap, PowerOfTwo, AlignUp;
    RoundedDivides(align);
    var a := Rounded(align);
    if HEADER + size + a - 1 < W64 {
      TotalEnough(size, a);
    } else {
      TotalTooSmall(size, a);
    }
  }

  /** What an allocation from fresh memory gives. */
  lemma BumpGives(h: HeapState, size: nat, align: nat)
    requires BlocksOk(h) && Askable(h, size, align)
    ensures var p, t, a := BumpAt(h.ptr, Rounded(align)), Total(size, align), Rounded(align);
      h.ptr + HEADER <= p < h.ptr + HEADER + a && align > 0 && p % a == 0 && p % align == 0 && p % 16 == 0 &&
      t >= HEADER + size && MIN_BLOCK <= t < HEADER + size + a
  {
    hide PowerOfTwo, BumpAt, Total;
    RoundedDivides(align);
    BumpIs(h.ptr, Rounded(align));
    TotalHolds(size, align);
    var p := BumpAt(h.ptr, Rounded(align));
    DividesThrough(p, Rounded(align), 16);
    DividesThrough(p, Rounded(align), align);
    assert Total(size, align) >= MIN_BLOCK by { MinTotal(size, align); }
  }

  lemma MinTotal(size: nat, align: nat)
    ensures Total(size, align) >= MIN_BLOCK
  {
  }

  // ----- allocation keeps the partition -----

  /** Reusing free block `i`. */
  function Reuse(h: HeapState, i: nat, size: nat, align: nat): HeapState
    requires i < |h.free|
  {
    var b := h.free[i];
    h.(free := Without(h.free, i), live := h.live[User(b) := Grant(b, size, align)], used := h.used + b.size)
  }

  /** Extending the part handed out by block `b`. */
  function Extend(h: HeapState, b: Block, size: nat, align: nat): HeapState {
    h.(ptr := b.addr + b.size, live := h.live[User(b) := Grant(b, size, align)], used := h.used + b.size,
       gap := h.gap + if b.addr > h.ptr then b.addr - h.ptr else 0)
  }

  /** Allocation is one of these, or leaves everything as it was. */
  lemma AllocCases(h: HeapState, size: nat, align: nat)
    requires BlocksOk(h) && Askable(h, size, align)
    ensures var a, t := Rounded(align), Total(size, align);
      var i := FirstFit(h.free, t, a);
      var p := BumpAt(h.ptr, a);
      p >= HEADER &&
      Alloc(h, size, align) ==
        if i < |h.free| then (Reuse(h, i, size, align), User(h.free[i]))
        else if p + size > h.end then (h, 0)
        else (Extend(h, Block(p - HEADER, t), size, align), p)
  {
    hide PowerOfTwo, BumpAt, Total, FirstFit, Wrap;
    BumpGives(h, size, align);
  }

  lemma FreeUserNotLive(h: HeapState, i: nat)
    requires BlocksOk(h) && Disjoint(h) && i < |h.free|
    ensures User(h.free[i]) !in h.live
  {
    var p := User(h.free[i]);
    assert p in h.live ==> GrantOk(h, p, h.live[p]) && Apart(h.live[p].block, h.free[i]);
  }

  lemma WithoutAt(free: seq<Block>, i: nat, k: nat)
    requires i < |free| && k < |free| - 1
    ensures Without(free, i)[k] == free[if k < i then k else k + 1]
  {
  }

  lemma {:induction false} ReuseKeeps(h: HeapState, i: nat, size: nat, align: nat)
    requires HeapOk(h) && i < |h.free| && align > 0
    requires h.free[i].size >= HEADER + size && User(h.free[i]) % align == 0
    ensures HeapOk(Reuse(h, i, size, align)) && User(h.free[i]) !in h.live
  {
    var g := Reuse(h, i, size, align);
    FreeUserNotLive(h, i);
    var p := User(h.free[i]);
    LiveBytesWith(h.live, p, g.live[p]);
    FreeBytesWithout(h.free, i);
    assert BlocksOk(g) by {
      hide LiveBytes, FreeBytes, Disjoint;
      forall k | 0 <= k < |g.free| ensures BlockOk(g, g.free[k]) {
        WithoutAt(h.free, i, k);
      }
      forall q | q in g.live ensures GrantOk(g, q, g.live[q]) {
        if q != p { assert GrantOk(h, q, h.live[q]); }
      }
    }
    ReuseDisjoint(h, i, size, align);
  }

  lemma {:induction false} ReuseDisjoint(h: HeapState, i: nat, size: nat, align: nat)
    requires Disjoint(h) && i < |h.free|
    ensures Disjoint(Reuse(h, i, size, align))
  {
    hide Without, Apart;
    var g := Reuse(h, i, size, align);
    ApartBothWays();
    forall k: nat | k < |g.free| ensures g.free[k] == h.free[if k < i then k else k + 1] {
      WithoutAt(h.free, i, k);
    }
  }

  lemma ApartBothWays()
    ensures forall b, c :: Apart(b, c) <==> Apart(c, b)
  {
  }

  lemma {:induction false} ExtendKeeps(h: HeapState, b: Block, size: nat, align: nat)
    requires HeapOk(h) && align > 0 && b.addr >= h.ptr && b.addr % 16 == 0
    requires b.size >= HEADER + size && b.size >= MIN_BLOCK && User(b) % align == 0 && b.addr + b.size < W64
    ensures HeapOk(Extend(h, b, size, align)) && User(b) !in h.live
  {
    var g := Extend(h, b, size, align);
    var p := User(b);
    assert p in h.live ==> GrantOk(h, p, h.live[p]);
    LiveBytesWith(h.live, p, g.live[p]);
    assert BlocksOk(g) by {
      hide LiveBytes, FreeBytes, Disjoint;
      forall q | q in g.live ensures GrantOk(g, q, g.live[q]) {
        if q != p { assert GrantOk(h, q, h.live[q]); }
      }
      assert forall k :: 0 <= k < |g.free| ==> BlockOk(h, h.free[k]);
    }
    ExtendDisjoint(h, b, size, align);
  }

  lemma {:induction false} ExtendDisjoint(h: HeapState, b: Block, size: nat, align: nat)
    requires BlocksOk(h) && Disjoint(h) && b.addr >= h.ptr
    ensures Disjoint(Extend(h, b, size, align))
  {
    forall q | q in h.live ensures Apart(h.live[q].block, b) {
      assert GrantOk(h, q, h.live[q]);
    }
    forall k | 0 <= k < |h.free| ensures Apart(b, h.free[k]) {
      assert BlockOk(h, h.free[k]);
    }
    ApartBothWays();
    hide Apart, GrantOk, BlockOk;
  }

  /** Every allocation keeps the partition.  A result is a new live address of
      the alignment asked for, with room behind its header for what was asked;
      nothing else becomes or stops being live.  On failure nothing changes. */
  lemma {:induction false} AllocKeeps(h: HeapState, size: nat, align: nat)
    requires HeapOk(h) && Askable(h, size, align)
    ensures var (g, p) := Alloc(h, size, align);
      HeapOk(g) && g.start == h.start && g.end == h.end &&
      (p == 0 ==> g == h) &&
      (p != 0 ==>
        p !in h.live && p in g.live && g.live == h.live[p := g.live[p]] &&
        g.live[p].asked == size && g.live[p].align == align && p % Rounded(align) == 0 && p >= h.start + HEADER &&
        (g.ptr == h.ptr || (g.ptr < h.end + Rounded(align) && p + size <= h.end)))
  {
    hide PowerOfTwo, BumpAt, Total, FirstFit, Wrap, LiveBytes, FreeBytes, BlocksOk, Disjoint, Accounted, Alloc, Without;
    AllocCases(h, size, align);
    var a, t := Rounded(align), Total(size, align);
    var i := FirstFit(h.free, t, a);
    WithinWord(h);
    if i < |h.free| {
      FitUser(h, size, align);
      ReuseKeeps(h, i, size, align);
    } else {
      BumpGives(h, size, align);
      var p := BumpAt(h.ptr, a);
      if p + size <= h.end {
        assert (p - HEADER) % 16 == 0;
        ExtendKeeps(h, Block(p - HEADER, t), size, align);
      }
    }
  }

  lemma FitUser(h: HeapState, size: nat, align: nat)
    requires BlocksOk(h) && Askable(h, size, align) && FirstFit(h.free, Total(size, align), Rounded(align)) < |h.free|
    ensures align > 0
    ensures var b := h.free[FirstFit(h.free, Total(size, align), Rounded(align))];
      b.size >= HEADER + size && User(b) % Rounded(align) == 0 && User(b) % align == 0 && User(b) >= h.start + HEADER
  {
    hide PowerOfTwo, Total, FirstFit;
    var a, t := Rounded(align), Total(size, align);
    var i := FirstFit(h.free, t, a);
    FirstFitIs(h.free, t, a);
    var b := h.free[i];
    assert BlockOk(h, b);
    RoundedDivides(align);
    DividesThrough(User(b), a, align);
    BumpGives(h, size, align);
  }

  /** Freeing a live block keeps the partition, and puts the block first on the
      free list. */
  lemma {:induction false} FreeKeeps(h: HeapState, p: nat)
    requires HeapOk(h) && p in h.live
    ensures var g := Free(h, p);
      HeapOk(g) && g.live == h.live - {p} && g.free == [h.live[p].block] + h.free &&
      g.ptr == h.ptr && g.start == h.start && g.end == h.end && g.gap == h.gap
  {
    var g := Free(h, p);
    var b := h.live[p].block;
    LiveBytesWithout(h.live, p);
    assert g.free[0] == b && g.free[1..] == h.free;
    assert GrantOk(h, p, h.live[p]);
    assert BlocksOk(g) by {
      hide LiveBytes, FreeBytes, Disjoint;
      forall q | q in g.live ensures GrantOk(g, q, g.live[q]) {
        assert GrantOk(h, q, h.live[q]);
      }
    }
    FreeDisjoint(h, p);
  }

  lemma {:induction false} FreeDisjoint(h: HeapState, p: nat)
    requires Disjoint(h) && p in h.live
    ensures Disjoint(Free(h, p))
  {
    hide Apart;
    var g := Free(h, p);
    ApartBothWays();
    assert forall k :: 0 < k < |g.free| ==> g.free[k] == h.free[k - 1];
  }

  // ----- runs -----

  datatype Call = Malloc(size: nat, align: nat) | Release(p: nat)

  /** A single free of a live pointer, or an allocation that cannot wrap. */
  ghost predicate Allowed(h: HeapState, c: Call) {
    match c
    case Malloc(size, align) => Askable(h, size, align)
    case Release(p) => p in h.live
  }

  function Perform(h: HeapState, c: Call): HeapState
    requires c.Release? ==> c.p in h.live
  {
    match c
    case Malloc(size, align) => Alloc(h, size, align).0
    case Release(p) => Free(h, p)
  }

  ghost predicate HeapRun(h: HeapState, cs: seq<Call>, g: HeapState)
    decreases |cs|
  {
    if cs == [] then g == h else Allowed(h, cs[0]) && HeapRun(Perform(h, cs[0]), cs[1..], g)
  }

  /** The heap as the kernel sets it up. */
  predicate Fresh(h: HeapState) {
    0 < h.start == h.ptr <= h.end < W64 && h.free == [] && h.live == map[] && h.used == 0 && h.gap == 0
  }

  /** After any run of allocations and frees, live and free blocks are disjoint
      and within the part handed out, every block holds what was asked of it at
      its alignment, and sizes and gaps add up. */
  lemma {:induction false} HeapRunOk(h: HeapState, cs: seq<Call>, g: HeapState)
    requires HeapOk(h) && HeapRun(h, cs, g)
    ensures HeapOk(g)
    decreases |cs|
  {
    hide HeapOk, Alloc, Free, Askable;
    if cs != [] {
      match cs[0]
      case Malloc(size, align) => AllocKeeps(h, size, align);
        HeapRunOk(Perform(h, cs[0]), cs[1..], g);
      case Release(p) => FreeKeeps(h, p);
        HeapRunOk(Perform(h, cs[0]), cs[1..], g);
    }
  }

  lemma FreshOk(h: HeapState)
    requires Fresh(h)
    ensures HeapOk(h)
  {
  }

  /** Any two blocks, live or free, are disjoint, and no block occurs twice on
      the free list: the list is acyclic. */
  lemma FreeListAcyclic(h: HeapState, cs: seq<Call>, g: HeapState, i: nat, j: nat)
    requires Fresh(h) && HeapRun(h, cs, g) && i < j < |g.free|
    ensures g.free[i].addr != g.free[j].addr && User(g.free[i]) !in g.live
  {
    HeapRunOk(h, cs, g);
    FreeUserNotLive(g, i);
    assert BlockOk(g, g.free[i]) && BlockOk(g, g.free[j]);
    assert Apart(g.free[i], g.free[j]);
  }

  // ----- totals -----

  /** `alloc_free`: fresh memory left plus the free list. */
  function FreeTotal(h: HeapState): nat {
    Wrap(Wrap(h.end + W64 - Wrap(h.ptr)) + FreeBytes(h.free))
  }

  lemma WithinWord(h: HeapState)
    requires BlocksOk(h)
    ensures 0 < h.start <= h.ptr < W64 && h.end < W64
  {
  }

  /** The bytes used, free and skipped are the whole heap exactly while no
      block has been rounded past the end of it by more than the free list
      holds. */
  lemma UsedPlusFree(h: HeapState)
    requires HeapOk(h) && h.start < h.end
    ensures h.used + h.gap + FreeTotal(h) == h.end - h.start <==> h.ptr <= h.end + FreeBytes(h.free)
  {
    hide BlocksOk, Disjoint, LiveBytes, FreeBytes, Wrap;
    assert h.ptr < W64 && h.end < W64 by { assert BlocksOk(h); WithinWord(h); }
    if h.ptr <= h.end {
      assert Wrap(h.end + W64 - h.ptr) == h.end - h.ptr;
    } else {
      assert Wrap(h.end + W64 - h.ptr) == h.end + W64 - h.ptr;
    }
  }

  /** How far a block may be rounded past the end: less than its alignment. */
  ghost predicate Sixteen(h: HeapState) {
    h.start % 16 == 0 && h.end % 16 == 0 && h.ptr % 16 == 0 && h.gap == 0 && h.ptr <= h.end
  }

  /** With 16-byte requests only, no byte is lost: used and free bytes are the
      whole heap after every run. */
  lemma {:induction false} NothingLost(h: HeapState, cs: seq<Call>, g: HeapState)
    requires HeapOk(h) && Sixteen(h) && HeapRun(h, cs, g)
    requires forall k :: 0 <= k < |cs| && cs[k].Malloc? ==> cs[k].align <= 16
    ensures HeapOk(g) && Sixteen(g) && g.end == h.end && g.start == h.start
    ensures g.start < g.end ==> g.used + FreeTotal(g) == g.end - g.start
    decreases |cs|
  {
    hide HeapOk, Alloc, Free, Askable, FreeTotal;
    if cs != [] {
      match cs[0]
      case Malloc(size, align) => AllocKeeps(h, size, align); SixteenKeeps(h, size, align);
        NothingLost(Perform(h, cs[0]), cs[1..], g);
      case Release(p) => FreeKeeps(h, p);
        NothingLost(Perform(h, cs[0]), cs[1..], g);
    } else if g.start < g.end {
      UsedPlusFree(g);
    }
  }

  lemma BelowEnd(ptr: nat, t: nat, size: nat, end: nat)
    requires ptr % 16 == 0 && t % 16 == 0 && end % 16 == 0 && t < HEADER + size + 16
    ensures (ptr + t) % 16 == 0 && (ptr + HEADER + size <= end ==> ptr + t <= end)
  {
  }

  lemma SixteenKeeps(h: HeapState, size: nat, align: nat)
    requires HeapOk(h) && Sixteen(h) && Askable(h, size, align) && align <= 16
    ensures Sixteen(Alloc(h, size, align).0)
  {
    hide PowerOfTwo, BumpAt, Total, FirstFit, Wrap, LiveBytes, FreeBytes, BlocksOk, Disjoint, Accounted, Alloc, Without;
    WithinWord(h);
    AllocCases(h, size, align);
    assert Rounded(align) == 16;
    TotalHolds(size, align);
    BumpIs(h.ptr, 16);
    AlignUpIs(h.ptr + HEADER, 16);
    assert (h.ptr + HEADER) % 16 == 0;
    assert BumpAt(h.ptr, 16) == h.ptr + HEADER;
    var t := Total(size, align);
    BelowEnd(h.ptr, t, size, h.end);
  }
}
