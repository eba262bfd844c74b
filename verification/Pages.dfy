/** Per-process translation tables: a level-1 table of four entries, four
    level-2 tables of 2 MB blocks, and level-3 tables made when a block has to
    be split into pages.  Descriptors are the VMSAv8-64 formats of section D8.3
    of the Arm Architecture Reference Manual, as numbers. */
module Pages {
  import opened Basics
  import opened Heap

  const PAGE: nat := 0x1000
  const BLOCK: nat := 0x20_0000
  const FOUR_GB: nat := 0x1_0000_0000
  const RAM_END: nat := 0x3C00_0000
  const ENTRIES: nat := 512
  const BLOCKS: nat := 2048      // 2 MB blocks in 4 GB
  const PAGES: nat := 0x10_0000  // pages in 4 GB
  const MAX_L3: nat := 16
  const PROC_SIZE: nat := 176

  // ----- descriptors -----

  function TableDesc(pa: nat): nat {
    pa + 3
  }

  function BlockDesc(pa: nat, device: bool): nat {
    pa + if device then 0x605 else 0x701
  }

  function PageDesc(pa: nat, device: bool): nat {
    pa + if device then 0x607 else 0x703
  }

  /** The program joins address and flags with `|`; for a page-aligned address
      that is their sum. */
  lemma OrIsSum(pa: bv64, flags: bv64)
    requires pa & 0xFFF == 0 && flags <= 0xFFF
    ensures pa | flags == pa + flags
  {
  }

  /** Block or page, attribute index, shareability and access flag. */
  lemma FlagBits()
    ensures (1 as bv64) | (3 << 8) | (1 << 10) == 0x701
    ensures (1 as bv64) | (1 << 2) | (2 << 8) | (1 << 10) == 0x605
    ensures (3 as bv64) | (3 << 8) | (1 << 10) == 0x703
    ensures (3 as bv64) | (1 << 2) | (2 << 8) | (1 << 10) == 0x607
  {
  }

  /** Bits 1:0. */
  function Kind(e: nat): nat { e % 4 }

  /** Bits 4:2, the memory attribute index. */
  function AttrIndex(e: nat): nat { e / 4 % 8 }

  /** Bits 11:2, all lower attributes. */
  function Attrs(e: nat): nat { e / 4 % 1024 }

  /** Bits 47:12, the address of a table or page. */
  function TableAddr(e: nat): nat { e / PAGE % 0x10_0000_0000 * PAGE }

  /** The address of a 2 MB block: all bits from 21 up. */
  function BlockAddr(e: nat): nat { e - e % BLOCK }

  lemma TableFields(pa: nat)
    requires pa % PAGE == 0 && pa < FOUR_GB
    ensures Kind(TableDesc(pa)) == 3 && TableAddr(TableDesc(pa)) == pa
  {
    PageBits(pa / PAGE, 3);
  }

  lemma PageFields(pa: nat, device: bool)
    requires pa % PAGE == 0 && pa < FOUR_GB
    ensures var e := PageDesc(pa, device);
      Kind(e) == 3 && TableAddr(e) == pa && e != 0 && Attrs(e) == if device then 0x181 else 0x1C0
  {
    var c := if device then 0x607 else 0x703;
    assert PageDesc(pa, device) == pa / PAGE * 0x1000 + c;
    PageBits(pa / PAGE, c);
    hide PageDesc;
  }

  lemma PageBits(k: nat, c: nat)
    requires c < 0x1000
    ensures var e := k * 0x1000 + c; e % 4 == c % 4 && e / 4 % 0x400 == c / 4 && e / 0x1000 == k
  {
    assert (k * 0x1000 + c) / 4 == k * 0x400 + c / 4;
  }

  lemma BlockFields(pa: nat, device: bool)
    requires pa % BLOCK == 0 && pa < FOUR_GB
    ensures var e := BlockDesc(pa, device);
      Kind(e) == 1 && BlockAddr(e) == pa && (AttrIndex(e) != 0 <==> device) && Attrs(e) == if device then 0x181 else 0x1C0
  {
    var k := pa / BLOCK;
    var c := if device then 0x605 else 0x701;
    assert pa == k * 0x20_0000 && BlockDesc(pa, device) == k * 0x20_0000 + c;
    LowBits(k, c);
    AttrBits(k, c / 4);
    hide BlockDesc;
  }

  lemma LowBits(k: nat, c: nat)
    requires c < 0x1000
    ensures var e := k * 0x20_0000 + c; e % 4 == c % 4 && e / 4 == k * 0x8_0000 + c / 4 && e % 0x20_0000 == c
  {
  }

  lemma AttrBits(k: nat, d: nat)
    requires d < 0x400
    ensures var e := k * 0x8_0000 + d; e % 1024 == d && e % 8 == d % 8
  {
  }

  // ----- the walk the hardware does -----

  datatype Mapping = Absent | Mapped(pa: nat, attrs: nat)

  type Memory = map<nat, seq<nat>>

  function Entry(mem: Memory, table: nat, i: nat): nat {
    if table in mem && i < |mem[table]| then mem[table][i] else 0
  }

  /** Translation of `va` by the tables at `l1`. */
  function Translate(mem: Memory, l1: nat, va: nat): Mapping {
    var e1 := Entry(mem, l1, va / 0x4000_0000);
    if Kind(e1) != 3 then Absent
    else
      var e2 := Entry(mem, TableAddr(e1), va / BLOCK % ENTRIES);
      if Kind(e2) == 1 then Mapped(BlockAddr(e2) + va % BLOCK, Attrs(e2))
      else if Kind(e2) != 3 then Absent
      else
        var e3 := Entry(mem, TableAddr(e2), va / PAGE % ENTRIES);
        if Kind(e3) == 3 then Mapped(TableAddr(e3) + va % PAGE, Attrs(e3)) else Absent
  }

  // ----- processes -----

  datatype Proc = Proc(base: nat, l1: nat, l2: seq<nat>, l3: seq<nat>)

  datatype World = World(heap: HeapState, mem: Memory)

  predicate Device(pa: nat) {
    pa >= RAM_END
  }

  /** Level-2 table `i` before any block of it is split. */
  function BlockTable(i: nat): (t: seq<nat>)
    ensures |t| == ENTRIES
  {
    seq(ENTRIES, j requires 0 <= j < ENTRIES =>
      BlockDesc(i * ENTRIES * BLOCK + j * BLOCK, Device(i * ENTRIES * BLOCK + j * BLOCK)))
  }

  /** The pages of the 2 MB block at `pa`. */
  function PageTable(pa: nat, device: bool): (t: seq<nat>)
    ensures |t| == ENTRIES
  {
    seq(ENTRIES, k requires 0 <= k < ENTRIES => PageDesc(pa + k * PAGE, device))
  }

  function Zeros(): (t: seq<nat>)
    ensures |t| == ENTRIES
  {
    seq(ENTRIES, _ => 0)
  }

  /** The level-2 entry of block number `b`. */
  function BlockEntry(mem: Memory, p: Proc, b: nat): nat
    requires |p.l2| == 4 && b < BLOCKS
  {
    Entry(mem, p.l2[b / ENTRIES], b % ENTRIES)
  }

  function Whole(b: nat): nat {
    BlockDesc(b * BLOCK, Device(b * BLOCK))
  }

  function PageOf(n: nat): nat {
    PageDesc(n * PAGE, Device(n * PAGE))
  }

  predicate Split(mem: Memory, p: Proc, b: nat)
    requires |p.l2| == 4 && b < BLOCKS
  {
    Kind(BlockEntry(mem, p, b)) == 3
  }

  /** Page number `n` has been made absent. */
  predicate Hidden(mem: Memory, p: Proc, n: nat)
    requires |p.l2| == 4 && n < PAGES
  {
    Split(mem, p, n / ENTRIES) && Entry(mem, TableAddr(BlockEntry(mem, p, n / ENTRIES)), n % ENTRIES) == 0
  }

  // ----- the invariant of one process -----

  predicate IsPage(w: World, t: nat) {
    t in w.mem && |w.mem[t]| == ENTRIES && t in w.heap.live && t % PAGE == 0 && 0 < t < FOUR_GB
  }

  /** All that a process owns, in the order it is given back. */
  function Parts(p: Proc): seq<nat> {
    p.l3 + p.l2 + [p.l1, p.base]
  }

  ghost predicate Owns(w: World, p: Proc) {
    |p.l2| == 4 && |p.l3| <= MAX_L3 && NoDup(Parts(p)) && p.base != 0 && p.base in w.heap.live &&
    IsPage(w, p.l1) && (forall i :: 0 <= i < 4 ==> IsPage(w, p.l2[i])) && (forall k :: 0 <= k < |p.l3| ==> IsPage(w, p.l3[k]))
  }

  /** Every 2 MB block is either whole or split into its own pages, each of them
      in place or absent; no two blocks share a table. */
  ghost predicate TablesOk(mem: Memory, p: Proc)
    requires |p.l2| == 4
  {
    (forall i :: 0 <= i < 4 ==> Entry(mem, p.l1, i) == TableDesc(p.l2[i])) &&
    (forall b: nat :: b < BLOCKS ==>
      BlockEntry(mem, p, b) == Whole(b) || (Split(mem, p, b) && BlockTableIn(mem, p, b))) &&
    (forall b: nat, c: nat :: (b < BLOCKS && c < BLOCKS && Split(mem, p, b) &&
      BlockEntry(mem, p, b) == BlockEntry(mem, p, c)) ==> b == c)
  }

  ghost predicate BlockTableIn(mem: Memory, p: Proc, b: nat)
    requires |p.l2| == 4 && b < BLOCKS
  {
    var t := TableAddr(BlockEntry(mem, p, b));
    t in p.l3 && BlockEntry(mem, p, b) == TableDesc(t) && PagesIn(mem, t, b)
  }

  ghost predicate PagesIn(mem: Memory, t: nat, b: nat) {
    forall k: nat :: k < ENTRIES ==> Entry(mem, t, k) == 0 || Entry(mem, t, k) == PageOf(b * ENTRIES + k)
  }

  ghost predicate ProcOk(w: World, p: Proc) {
    Owns(w, p) && TablesOk(w.mem, p)
  }

  /** A sound heap below 4 GB, no block of which runs a whole page past its end. */
  ghost predicate Good(h: HeapState) {
    HeapOk(h) && h.end % PAGE == 0 && h.end <= FOUR_GB && h.ptr < h.end + PAGE
  }

  /** Under the invariant the hardware maps every address to itself, with the
      attributes of the memory there, unless its page is absent. */
  lemma TranslateIs(w: World, p: Proc, va: nat)
    requires ProcOk(w, p) && va < FOUR_GB
    ensures va / PAGE < PAGES
    ensures Translate(w.mem, p.l1, va) ==
      if Hidden(w.mem, p, va / PAGE) then Absent else Mapped(va, if va >= 0x3C00_0000 then 0x181 else 0x1C0)
  {
    hide TableAddr, Kind, Attrs, NoDup, BlockAddr;
    PageNumbers(va);
    var b := va / BLOCK;
    var n := va / PAGE;
    var i := b / ENTRIES;
    assert IsPage(w, p.l2[i]);
    TableFields(p.l2[i]);
    assert Entry(w.mem, p.l1, i) == TableDesc(p.l2[i]);
    var e := BlockEntry(w.mem, p, b);
    assert e == Entry(w.mem, p.l2[i], va / BLOCK % ENTRIES);
    hide TableDesc, BlockDesc, PageDesc, AttrIndex;
    if e == Whole(b) {
      BlockFields(b * BLOCK, Device(b * BLOCK));
    } else {
      TranslateSplit(w, p, va);
    }
  }

  lemma TranslateSplit(w: World, p: Proc, va: nat)
    requires |p.l2| == 4 && va < FOUR_GB && va / BLOCK < BLOCKS && BlockTableIn(w.mem, p, va / BLOCK)
    ensures var t := TableAddr(BlockEntry(w.mem, p, va / BLOCK));
      var e := Entry(w.mem, t, va / PAGE % ENTRIES);
      if e == 0 then Kind(e) == 0
      else Kind(e) == 3 && TableAddr(e) + va % PAGE == va && Attrs(e) == if va >= 0x3C00_0000 then 0x181 else 0x1C0
  {
    hide TableAddr, Kind, Attrs, BlockEntry, PageDesc;
    PageNumbers(va);
    var n := va / PAGE;
    PageFields(n * PAGE, Device(n * PAGE));
    var t := TableAddr(BlockEntry(w.mem, p, va / BLOCK));
    assert PagesIn(w.mem, t, va / BLOCK);
    assert Entry(w.mem, t, n % ENTRIES) == 0 || Entry(w.mem, t, n % ENTRIES) == PageOf(n);
    assert Kind(0) == 0 by { NothingThere(); }
  }

  lemma PageNumbers(va: nat)
    requires va < FOUR_GB
    ensures var b, n := va / BLOCK, va / PAGE;
      n / ENTRIES == b && n < PAGES && b < BLOCKS && b / ENTRIES == va / 0x4000_0000 && b % ENTRIES == va / BLOCK % ENTRIES &&
      b * ENTRIES + n % ENTRIES == n && n % ENTRIES == va / PAGE % ENTRIES &&
      b * BLOCK + va % BLOCK == va && n * PAGE + va % PAGE == va &&
      (Device(va) <==> Device(b * BLOCK)) && (Device(va) <==> Device(n * PAGE))
  {
  }

  lemma NothingThere()
    ensures Kind(0) == 0
  {
  }
}
