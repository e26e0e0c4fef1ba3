/**
 The boot-time translation tables (freestanding/mmu.cpp) and the walk the core makes through them:
 a stage 1 walk of VMSAv8-64 with a 4 KB granule and a 39-bit input address (Arm Architecture Reference
 Manual DDI 0487, chapter D8), starting at level 1.
 */
module Mmu {
  type Word = bv64

  // ----- Descriptors

  const K2MB: Word := 0x20_0000
  const K1GB: Word := 0x4000_0000
  const PERIPH_BASE: Word := 0x3F00_0000
  const PERIPH_INDEX: nat := 0x3F00_0000 / 0x20_0000

  const DESC_BLOCK: Word := 1
  const DESC_TABLE: Word := 3
  const AF: Word := 1 << 10
  const SH_INNER: Word := 3 << 8

  /** ATTRIDX(ATTR_DEVICE) and ATTRIDX(ATTR_NORMAL). */
  const IDX_DEVICE: Word := 0 << 2
  const IDX_NORMAL: Word := 1 << 2

  function NormalBlock(pa: Word): Word {
    pa | AF | SH_INNER | IDX_NORMAL | DESC_BLOCK
  }

  function DeviceBlock(pa: Word): Word {
    pa | AF | IDX_DEVICE | DESC_BLOCK
  }

  /** Memory attribute indirection register: attribute 0 in bits 7..0, attribute 1 in bits 15..8. */
  const MAIR: Word := (0xFF << 8) | 0

  /** Translation control register. */
  const TCR: Word := 25 | (1 << 8) | (1 << 10) | (3 << 12) | (0 << 14) | (1 << 23) | (2 << 32)

  // ----- The architecture's walk

  datatype Memory = DevicenGnRnE | NormalWriteBack | OtherMemory
  datatype Sharing = NonShareable | OuterShareable | InnerShareable | Reserved

  /** What the kernel (EL1) and user programs (EL0) may do; reading is always allowed at EL1. Not `global`: the entry
      belongs to one address space. Not `secure`: the output address is in the Non-secure space. */
  datatype Access = Access(write: bool, execute: bool, user: bool, userWrite: bool, userExecute: bool, global: bool,
                           secure: bool)

  /** `Elsewhere`: a regime this walk does not describe. */
  datatype Walk =
    | Fault
    | Elsewhere
    | Page(pa: Word, memory: Memory, sharing: Sharing, access: Access)

  /** What the table descriptors on the way forbid below them: NSTable, APTable (no user access, read-only), UXNTable,
      PXNTable. */
  datatype Above = Above(ns: bool, noUser: bool, readOnly: bool, uxn: bool, pxn: bool)

  const OPEN: Above := Above(false, false, false, false, false)

  function Below(above: Above, d: Word): Above {
    Above(above.ns || d & (1 << 63) != 0, above.noUser || d & (1 << 61) != 0, above.readOnly || d & (1 << 62) != 0,
          above.uxn || d & (1 << 60) != 0, above.pxn || d & (1 << 59) != 0)
  }

  /** NS in bit 5, AP[2:1] in bits 7 and 6, nG in bit 11, PXN in bit 53, UXN in bit 54. What user programs may write the
      kernel may not execute. */
  function AccessOf(above: Above, d: Word): Access {
    var write := d & (1 << 7) == 0 && !above.readOnly;
    var user := d & (1 << 6) != 0 && !above.noUser;
    Access(write, d & (1 << 53) == 0 && !above.pxn && !(user && write), user, user && write,
           d & (1 << 54) == 0 && !above.uxn, d & (1 << 11) == 0, d & (1 << 5) == 0 && !above.ns)
  }

  /** Physical memory, as 64-bit words. */
  type Ram = Word -> Word

  /** TCR.IPS: physical addresses end here. */
  function PaLimit(tcr: Word): Word {
    var ips := (tcr >> 32) & 7;
    if ips == 0 then 0x1_0000_0000
    else if ips == 1 then 0x10_0000_0000
    else if ips == 2 then 0x100_0000_0000
    else if ips == 3 then 0x400_0000_0000
    else if ips == 4 then 0x1000_0000_0000
    else 0x1_0000_0000_0000
  }

  /** Bits 47..12: the next-level table, or the table base in TTBR0_EL1. */
  function TableAddress(d: Word): Word {
    d & 0xFFFF_FFFF_F000
  }

  /** Entry `i` of the table at `base`. */
  function Entry(ram: Ram, base: Word, i: Word): Word {
    ram(base | (i << 3))
  }

  function MairAttr(mair: Word, i: Word): Word
    requires i < 8
  {
    (if i == 0 then mair else if i == 1 then mair >> 8 else if i == 2 then mair >> 16 else if i == 3 then mair >> 24
     else if i == 4 then mair >> 32 else if i == 5 then mair >> 40 else if i == 6 then mair >> 48
     else mair >> 56) & 0xFF
  }

  function MemoryOf(attr: Word): Memory {
    if attr == 0x00 then DevicenGnRnE else if attr == 0xFF then NormalWriteBack else OtherMemory
  }

  /** Device memory is outer shareable whatever the descriptor says. */
  function SharingOf(memory: Memory, sh: Word): Sharing {
    if memory == DevicenGnRnE || sh == 2 then OuterShareable
    else if sh == 0 then NonShareable
    else if sh == 3 then InnerShareable
    else Reserved
  }

  /** The result of a leaf descriptor: output address `base`, provided that it is below `limit` and the access flag is
      set. */
  function Leaf(limit: Word, mair: Word, above: Above, d: Word, base: Word, offset: Word): Walk {
    if base >= limit || d & (1 << 10) == 0 then Fault
    else
      var memory := MemoryOf(MairAttr(mair, (d >> 2) & 7));
      Page(base | offset, memory, SharingOf(memory, (d >> 8) & 3), AccessOf(above, d))
  }

  /** Level 3: pages of 4 KB. */
  function WalkLevel3(ram: Ram, limit: Word, mair: Word, above: Above, table: Word, va: Word): Walk {
    var d := Entry(ram, table, (va >> 12) & 0x1FF);
    if table >= limit || d & 3 != 3 then Fault
    else Leaf(limit, mair, above, d, d & 0xFFFF_FFFF_F000, va & 0xFFF)
  }

  /** Level 2: blocks of 2 MB, or tables. */
  function WalkLevel2(ram: Ram, limit: Word, mair: Word, above: Above, table: Word, va: Word): Walk {
    var d := Entry(ram, table, (va >> 21) & 0x1FF);
    if table >= limit || d & 1 == 0 then Fault
    else if d & 3 == 1 then Leaf(limit, mair, above, d, d & 0xFFFF_FFE0_0000, va & 0x1F_FFFF)
    else WalkLevel3(ram, limit, mair, Below(above, d), TableAddress(d), va)
  }

  /** Level 1: blocks of 1 GB, or tables. */
  function WalkLevel1(ram: Ram, limit: Word, mair: Word, table: Word, va: Word): Walk {
    var d := Entry(ram, table, (va >> 30) & 0x1FF);
    if table >= limit || d & 1 == 0 then Fault
    else if d & 3 == 1 then Leaf(limit, mair, OPEN, d, d & 0xFFFF_C000_0000, va & 0x3FFF_FFFF)
    else WalkLevel2(ram, limit, mair, Below(OPEN, d), TableAddress(d), va)
  }

  /** T0SZ = 25 and TG0 = 0: 39-bit addresses, a 4 KB granule, a walk that starts at level 1. TBI0 = 0: the top byte
      counts. */
  predicate ThreeLevels(tcr: Word) {
    tcr & 0x3F == 25 && (tcr >> 14) & 3 == 0 && tcr & (1 << 37) == 0
  }

  /** EPD0: walks from TTBR0 are disabled. */
  predicate LowDisabled(tcr: Word) {
    tcr & (1 << 7) != 0
  }

  /** EPD1: walks from TTBR1 are disabled. */
  predicate HighDisabled(tcr: Word) {
    tcr & (1 << 23) != 0
  }

  /** The translation of a 64-bit address. Bit 55 selects the half; in the lower one the bits above the 39th are
      zero. */
  function Translate(ram: Ram, tcr: Word, mair: Word, ttbr0: Word, va: Word): Walk {
    if (va >> 55) & 1 == 1 then (if HighDisabled(tcr) then Fault else Elsewhere)
    else if !ThreeLevels(tcr) then Elsewhere
    else if va >> 39 != 0 || LowDisabled(tcr) then Fault
    else WalkLevel1(ram, PaLimit(tcr), mair, TableAddress(ttbr0), va)
  }

  // ----- Building the tables

  /** A loop counter as a 64-bit word. */
  function Word64(n: nat): Word {
    if n == 0 then 0 else (Word64(n / 2) << 1) | (if n % 2 == 1 then 1 else 0)
  }

  type Table = t: seq<Word> | |t| == 512 witness seq(512, _ => 0)

  function Level2Entry(i: nat): Word {
    if i < PERIPH_INDEX then NormalBlock(Word64(i) * K2MB) else DeviceBlock(Word64(i) * K2MB)
  }

  /** What mmu_build_tables leaves behind; `l2Base` is the address of l2. */
  ghost predicate Built(l1: Table, l2: Table, l2Base: Word) {
    && l1[0] == l2Base | DESC_TABLE
    && l1[1] == DeviceBlock(K1GB)
    && (forall i | 2 <= i < 512 :: l1[i] == 0)
    && (forall i | 0 <= i < 512 :: l2[i] == Level2Entry(i))
  }

  lemma BlocksAre(w: Word)
    ensures NormalBlock(w * K2MB) == w * 0x20_0000 + 0x705
    ensures DeviceBlock(w * K2MB) == w * 0x20_0000 + 0x401
  {
  }

  lemma Level2EntryIs(i: nat, w: Word, d: Word)
    requires w == Word64(i) && d == Level2Entry(i)
    ensures i < 504 ==> d == w * 0x20_0000 + 0x705
    ensures i >= 504 ==> d == w * 0x20_0000 + 0x401
  {
    BlocksAre(w);
  }

  lemma Level1EntriesAre(base: Word)
    requires base & 0xFFF == 0
    ensures base | DESC_TABLE == base + 3 && DeviceBlock(K1GB) == 0x4000_0401
  {
  }

  /** The same in numbers: 2 MB blocks, write-back memory below index 504 and device from there, and one 1 GB block. */
  lemma BuiltIs(l1: Table, l2: Table, l2Base: Word, i: nat, w: Word, d: Word)
    requires Built(l1, l2, l2Base) && l2Base & 0xFFF == 0 && i < 512 && w == Word64(i) && d == l2[i]
    ensures l1[0] == l2Base + 3 && l1[1] == 0x4000_0401 && (i >= 2 ==> l1[i] == 0)
    ensures i < 504 ==> d == w * 0x20_0000 + 0x705
    ensures i >= 504 ==> d == w * 0x20_0000 + 0x401
  {
    Level1EntriesAre(l2Base);
    Level2EntryIs(i, w, d);
  }

  method BuildTables(l1: array<Word>, l2: array<Word>, l2Base: Word)
    requires l1.Length == l2.Length == 512 && l1 != l2
    modifies l1, l2
    ensures Built(l1[..], l2[..], l2Base)
  {
    FillLevel2(l2);
    l1[0] := l2Base | DESC_TABLE;
    l1[1] := DeviceBlock(K1GB);
    for i := 2 to 512
      invariant l1[0] == l2Base | DESC_TABLE && l1[1] == DeviceBlock(K1GB)
      invariant forall j | 2 <= j < i :: l1[j] == 0
      invariant forall j | 0 <= j < 512 :: l2[j] == Level2Entry(j)
    {
      l1[i] := 0;
    }
  }

  /** The first of its two loops. */
  method FillLevel2(l2: array<Word>)
    requires l2.Length == 512
    modifies l2
    ensures forall j | 0 <= j < 512 :: l2[j] == Level2Entry(j)
  {
    for i := 0 to 512
      invariant forall j | 0 <= j < i :: l2[j] == Level2Entry(j)
    {
      var pa := Word64(i) * K2MB;
      l2[i] := if i < PERIPH_INDEX then NormalBlock(pa) else DeviceBlock(pa);
    }
  }

  // ----- Indices

  /** The counter a word stands for. */
  function Counter(w: Word): nat
    decreases w
  {
    if w == 0 then 0 else 2 * Counter(w >> 1) + (if w & 1 == 1 then 1 else 0)
  }

  lemma LowBit(w: Word)
    ensures w == ((w >> 1) << 1) | (if w & 1 == 1 then 1 else 0)
    ensures w < 512 <==> w >> 1 < 256
  {
  }

  lemma DoubleWord(c: nat, odd: bool)
    ensures Word64(2 * c + if odd then 1 else 0) == (Word64(c) << 1) | (if odd then 1 else 0)
  {
    var n := 2 * c + if odd then 1 else 0;
    assert n / 2 == c && (n % 2 == 1 <==> odd);
    if n == 0 { assert c == 0 && !odd; }
  }

  lemma CounterStep(w: Word, half: Word, c: nat)
    requires w != 0 && half == w >> 1 && c == Counter(half) && Word64(c) == half
    ensures Word64(Counter(w)) == w
  {
    DoubleWord(c, w & 1 == 1);
    LowBit(w);
  }

  lemma {:induction false} CounterWord(w: Word)
    ensures Word64(Counter(w)) == w
    decreases w
  {
    if w != 0 {
      var half := w >> 1;
      CounterWord(half);
      CounterStep(w, half, Counter(half));
    }
  }

  lemma CounterHalf(w: Word, half: Word, limit: nat)
    requires half == w >> 1 && Counter(half) < limit
    ensures Counter(w) < 2 * limit
  {
  }

  /** A 9-bit index is below 512. */
  lemma CounterRange(w: Word)
    requires w >> 9 == 0
    ensures Counter(w) < 512
  {
    CounterHalf(w >> 8, w >> 9, 1);
    CounterHalf(w >> 7, w >> 8, 2);
    CounterHalf(w >> 6, w >> 7, 4);
    CounterHalf(w >> 5, w >> 6, 8);
    CounterHalf(w >> 4, w >> 5, 16);
    CounterHalf(w >> 3, w >> 4, 32);
    CounterHalf(w >> 2, w >> 3, 64);
    CounterHalf(w >> 1, w >> 2, 128);
    CounterHalf(w, w >> 1, 256);
  }

  lemma CounterEighth(w: Word, w1: Word, w2: Word, w3: Word)
    requires w1 == w >> 1 && w2 == w1 >> 1 && w3 == w2 >> 1
    ensures 8 * Counter(w3) <= Counter(w) <= 8 * Counter(w3) + 7
  {
    CounterWhole(w, w1);
    CounterWhole(w1, w2);
    CounterWhole(w2, w3);
  }

  lemma CounterIs63(x: Word)
    ensures Counter(x) == 63 <==> x == 63
  {
    assert Word64(63) == 63;
    CounterWord(x);
    assert Counter(3) == 3;
    assert Counter(15) == 15;
    assert Counter(63) == 63;
  }

  lemma CounterWhole(w: Word, half: Word)
    requires half == w >> 1
    ensures 2 * Counter(half) <= Counter(w) <= 2 * Counter(half) + 1
  {
  }

  /** The peripheral window begins at index 504: exactly there are the upper six bits of the index ones. */
  lemma CounterWindow(w: Word)
    requires w >> 9 == 0
    ensures Counter(w) < PERIPH_INDEX <==> w >> 3 != 63
  {
    var x := w >> 3;
    CounterRange(w);
    assert (w >> 2) >> 1 == x && (w >> 1) >> 1 == w >> 2;
    CounterEighth(w, w >> 1, w >> 2, x);
    CounterRange(w);
    CounterIs63(x);
  }

  // ----- The identity map

  /** `t` lies in memory at `base`. */
  ghost predicate InRam(ram: Ram, base: Word, t: Table) {
    forall i | 0 <= i < 512 :: Entry(ram, base, Word64(i)) == t[i]
  }

  lemma EntryInRam(ram: Ram, base: Word, t: Table, w: Word)
    requires InRam(ram, base, t) && w >> 9 == 0
    ensures Counter(w) < 512 && Entry(ram, base, w) == t[Counter(w)]
  {
    CounterRange(w);
    CounterWord(w);
  }

  /** Tables must be page aligned and within the physical address space. */
  predicate Placed(base: Word) {
    base & 0xFFF == 0 && base < PaLimit(TCR)
  }

  lemma PlacedAddress(base: Word)
    requires Placed(base)
    ensures TableAddress(base) == base && TableAddress(base | DESC_TABLE) == base
    ensures (base | DESC_TABLE) & 3 == 3 && Below(OPEN, base | DESC_TABLE) == OPEN
  {
  }

  /** The control register mmu_enable writes asks for the walk above, below 2^39 from TTBR0 alone, to 40-bit physical
      addresses; the walk itself reads the tables inner and outer write-back, write-allocate, inner shareable. */
  lemma TcrSelectsThisWalk()
    ensures ThreeLevels(TCR) && !LowDisabled(TCR) && HighDisabled(TCR) && PaLimit(TCR) == 0x100_0000_0000
    ensures (TCR >> 8) & 3 == 1 && (TCR >> 10) & 3 == 1 && (TCR >> 12) & 3 == 3
    ensures TCR == 0x2_0080_3519 && MAIR == 0xFF00
  {
  }

  /** The kernel may do anything, user programs can only execute. */
  const KERNEL: Access := Access(true, true, false, false, true, true, true)

  lemma NormalLeaf(va: Word, pa: Word)
    requires va >> 30 == 0 && pa == ((va >> 21) & 0x1FF) * K2MB
    ensures NormalBlock(pa) & 3 == 1
    ensures Leaf(PaLimit(TCR), MAIR, OPEN, NormalBlock(pa), NormalBlock(pa) & 0xFFFF_FFE0_0000, va & 0x1F_FFFF)
         == Page(va, NormalWriteBack, InnerShareable, KERNEL)
  {
  }

  lemma DeviceLeaf(va: Word, pa: Word)
    requires va >> 30 == 0 && pa == ((va >> 21) & 0x1FF) * K2MB
    ensures DeviceBlock(pa) & 3 == 1
    ensures Leaf(PaLimit(TCR), MAIR, OPEN, DeviceBlock(pa), DeviceBlock(pa) & 0xFFFF_FFE0_0000, va & 0x1F_FFFF)
         == Page(va, DevicenGnRnE, OuterShareable, KERNEL)
  {
  }

  lemma LocalLeaf(va: Word)
    requires va >> 30 == 1
    ensures DeviceBlock(K1GB) & 3 == 1
    ensures Leaf(PaLimit(TCR), MAIR, OPEN, DeviceBlock(K1GB), DeviceBlock(K1GB) & 0xFFFF_C000_0000, va & 0x3FFF_FFFF)
         == Page(va, DevicenGnRnE, OuterShareable, KERNEL)
  {
  }

  /** The two tables in memory, where mmu_enable points the core at them. */
  ghost predicate Mapped(ram: Ram, l1Base: Word, l2Base: Word, l1: Table, l2: Table) {
    && Placed(l1Base) && Placed(l2Base) && Built(l1, l2, l2Base)
    && InRam(ram, l1Base, l1) && InRam(ram, l2Base, l2)
  }

  lemma WindowBits(va: Word)
    requires va >> 30 == 0
    ensures ((va >> 21) & 0x1FF) >> 9 == 0
    ensures ((va >> 21) & 0x1FF) >> 3 != 63 <==> va < PERIPH_BASE
  {
  }

  lemma Level2Normal(ram: Ram, table: Word, va: Word, pa: Word)
    requires va >> 30 == 0 && pa == ((va >> 21) & 0x1FF) * K2MB && table < PaLimit(TCR)
    requires Entry(ram, table, (va >> 21) & 0x1FF) == NormalBlock(pa)
    ensures WalkLevel2(ram, PaLimit(TCR), MAIR, OPEN, table, va) == Page(va, NormalWriteBack, InnerShareable, KERNEL)
  {
    NormalLeaf(va, pa);
  }

  lemma Level2Device(ram: Ram, table: Word, va: Word, pa: Word)
    requires va >> 30 == 0 && pa == ((va >> 21) & 0x1FF) * K2MB && table < PaLimit(TCR)
    requires Entry(ram, table, (va >> 21) & 0x1FF) == DeviceBlock(pa)
    ensures WalkLevel2(ram, PaLimit(TCR), MAIR, OPEN, table, va) == Page(va, DevicenGnRnE, OuterShareable, KERNEL)
  {
    DeviceLeaf(va, pa);
  }

  lemma Level2Descriptor(ram: Ram, l2Base: Word, l2: Table, w: Word)
    requires w >> 9 == 0 && InRam(ram, l2Base, l2)
    requires forall i | 0 <= i < 512 :: l2[i] == Level2Entry(i)
    ensures Entry(ram, l2Base, w) == if w >> 3 != 63 then NormalBlock(w * K2MB) else DeviceBlock(w * K2MB)
  {
    EntryInRam(ram, l2Base, l2, w);
    CounterWindow(w);
    CounterWord(w);
  }

  lemma Level2Walk(ram: Ram, l2Base: Word, l2: Table, va: Word)
    requires va >> 30 == 0 && l2Base < PaLimit(TCR) && InRam(ram, l2Base, l2)
    requires forall i | 0 <= i < 512 :: l2[i] == Level2Entry(i)
    ensures va < PERIPH_BASE ==>
              WalkLevel2(ram, PaLimit(TCR), MAIR, OPEN, l2Base, va) == Page(va, NormalWriteBack, InnerShareable, KERNEL)
    ensures va >= PERIPH_BASE ==>
              WalkLevel2(ram, PaLimit(TCR), MAIR, OPEN, l2Base, va) == Page(va, DevicenGnRnE, OuterShareable, KERNEL)
  {
    var w := (va >> 21) & 0x1FF;
    WindowBits(va);
    Level2Descriptor(ram, l2Base, l2, w);
    if va < PERIPH_BASE { Level2Normal(ram, l2Base, va, w * K2MB); } else { Level2Device(ram, l2Base, va, w * K2MB); }
  }

  lemma Level1Table(ram: Ram, table: Word, next: Word, va: Word)
    requires Placed(next) && table < PaLimit(TCR)
    requires Entry(ram, table, (va >> 30) & 0x1FF) == next | DESC_TABLE
    ensures WalkLevel1(ram, PaLimit(TCR), MAIR, table, va) == WalkLevel2(ram, PaLimit(TCR), MAIR, OPEN, next, va)
  {
    PlacedAddress(next);
  }

  lemma Level1Local(ram: Ram, table: Word, va: Word)
    requires va >> 30 == 1 && table < PaLimit(TCR)
    requires Entry(ram, table, (va >> 30) & 0x1FF) == DeviceBlock(K1GB)
    ensures WalkLevel1(ram, PaLimit(TCR), MAIR, table, va) == Page(va, DevicenGnRnE, OuterShareable, KERNEL)
  {
    LocalLeaf(va);
  }

  lemma Level1Index(va: Word, w: Word)
    requires va >> 39 == 0 && w == (va >> 30) & 0x1FF
    ensures w >> 9 == 0 && w == va >> 30
    ensures w == 0 <==> va < K1GB
    ensures w == 1 <==> K1GB <= va < 0x8000_0000
  {
  }

  lemma Level1Descriptor(ram: Ram, l1Base: Word, l2Base: Word, l1: Table, l2: Table, w: Word)
    requires Mapped(ram, l1Base, l2Base, l1, l2) && w >> 9 == 0
    ensures w == 0 ==> Entry(ram, l1Base, w) == l2Base | DESC_TABLE
    ensures w == 1 ==> Entry(ram, l1Base, w) == DeviceBlock(K1GB)
    ensures w != 0 && w != 1 ==> Entry(ram, l1Base, w) == 0
  {
    EntryInRam(ram, l1Base, l1, w);
    CounterWord(w);
    assert Word64(0) == 0 && Word64(1) == 1 && Counter(0) == 0 && Counter(1) == 1;
  }

  /** What a core sees at every 64-bit address once the MMU is on: memory, peripherals, or a fault. */
  function Identity(va: Word): Walk {
    if va < 0x3F00_0000 then Page(va, NormalWriteBack, InnerShareable, KERNEL)
    else if va < 0x8000_0000 then Page(va, DevicenGnRnE, OuterShareable, KERNEL)
    else Fault
  }

  lemma HighAddresses(va: Word)
    ensures (va >> 55) & 1 == 1 ==> va >> 39 != 0
    ensures va >> 39 != 0 ==> Identity(va) == Fault
  {
  }

  lemma FirstGigabyte(ram: Ram, table: Word, next: Word, l2: Table, va: Word)
    requires Placed(next) && table < PaLimit(TCR) && InRam(ram, next, l2) && va >> 30 == 0
    requires forall i | 0 <= i < 512 :: l2[i] == Level2Entry(i)
    requires Entry(ram, table, (va >> 30) & 0x1FF) == next | DESC_TABLE
    ensures WalkLevel1(ram, PaLimit(TCR), MAIR, table, va) == Identity(va)
  {
    Level1Table(ram, table, next, va);
    Level2Walk(ram, next, l2, va);
    IdentityOf(va);
  }

  lemma SecondGigabyte(ram: Ram, table: Word, va: Word)
    requires table < PaLimit(TCR) && va >> 30 == 1 && Entry(ram, table, (va >> 30) & 0x1FF) == DeviceBlock(K1GB)
    ensures WalkLevel1(ram, PaLimit(TCR), MAIR, table, va) == Identity(va)
  {
    Level1Local(ram, table, va);
    IdentityOf(va);
  }

  lemma NoEntry(ram: Ram, table: Word, va: Word)
    requires va >> 30 != 0 && va >> 30 != 1 && Entry(ram, table, (va >> 30) & 0x1FF) == 0
    ensures WalkLevel1(ram, PaLimit(TCR), MAIR, table, va) == Identity(va)
  {
    IdentityOf(va);
  }

  lemma IdentityOf(va: Word)
    ensures va < PERIPH_BASE ==> Identity(va) == Page(va, NormalWriteBack, InnerShareable, KERNEL)
    ensures va >> 30 == 0 && va >= PERIPH_BASE ==> Identity(va) == Page(va, DevicenGnRnE, OuterShareable, KERNEL)
    ensures va >> 30 == 1 ==> Identity(va) == Page(va, DevicenGnRnE, OuterShareable, KERNEL)
    ensures va >> 30 != 0 && va >> 30 != 1 ==> Identity(va) == Fault
  {
  }

  lemma WalkIsIdentity(ram: Ram, l1Base: Word, l2Base: Word, l1: Table, l2: Table, va: Word)
    requires Mapped(ram, l1Base, l2Base, l1, l2) && va >> 39 == 0
    ensures WalkLevel1(ram, PaLimit(TCR), MAIR, l1Base, va) == Identity(va)
  {
    var w := (va >> 30) & 0x1FF;
    Level1Index(va, w);
    Level1Descriptor(ram, l1Base, l2Base, l1, l2, w);
    if w == 0 {
      FirstGigabyte(ram, l1Base, l2Base, l2, va);
    } else if w == 1 {
      SecondGigabyte(ram, l1Base, va);
    } else {
      NoEntry(ram, l1Base, va);
    }
  }

  /** Where the translation of an address of the lower half leads, with this control register. */
  lemma TranslateIs(ram: Ram, base: Word, va: Word)
    requires Placed(base)
    ensures va >> 39 == 0 ==> Translate(ram, TCR, MAIR, base, va) == WalkLevel1(ram, PaLimit(TCR), MAIR, base, va)
    ensures va >> 39 != 0 ==> Translate(ram, TCR, MAIR, base, va) == Fault
  {
    PlacedAddress(base);
    TcrSelectsThisWalk();
    HighAddresses(va);
  }

  lemma IdentityMap(ram: Ram, l1Base: Word, l2Base: Word, l1: Table, l2: Table, va: Word)
    requires Mapped(ram, l1Base, l2Base, l1, l2)
    ensures Translate(ram, TCR, MAIR, l1Base, va) == Identity(va)
  {
    TranslateIs(ram, l1Base, va);
    if va >> 39 == 0 {
      WalkIsIdentity(ram, l1Base, l2Base, l1, l2, va);
    } else {
      HighAddresses(va);
    }
  }
}
