/** The bits of an x86-64 page-table entry. */
module PteBits {
  const PRESENT: bv64 := 0x1
  const WRITE: bv64 := 0x2
  const USER: bv64 := 0x4
  const PWT: bv64 := 0x8
  const PCD: bv64 := 0x10
  const PAT: bv64 := 0x80
  const PAGESIZE: bv64 := 0x80
  const GLOBAL: bv64 := 0x100
  const PAT_LARGE: bv64 := 0x1000
  const ADDRESS: bv64 := 0x000F_FFFF_FFFF_F000
  const NO_EXECUTE: bv64 := 0x8000_0000_0000_0000

  datatype Cache = UC | WC | WT | WB

  datatype Prot = Prot(read: bool, write: bool, execute: bool, user: bool, global: bool)

  function If(b: bool, bits: bv64): bv64 {
    if b then bits else 0
  }

  /** `pte_pat_bits` */
  function PatBits(level: nat, cache: Cache): bv64 {
    match cache
    case WC => (if level > 0 then PAT_LARGE else PAT) | PWT
    case WT => PWT
    case WB => 0
    case UC => PWT | PWT
  }

  /** `pte_make` */
  function PteMake(level: nat, pa: bv64, prot: Prot, cache: Cache): bv64 {
    If(prot.read, PRESENT) | If(prot.write, PRESENT | WRITE) | If(!prot.execute, NO_EXECUTE) | If(prot.user, USER)
    | If(prot.global, GLOBAL) | If(level > 0, PAGESIZE) | PatBits(level, cache) | pa
  }

  /** `pte_make_dir` */
  function PteMakeDir(pa: bv64): bv64 {
    PRESENT | WRITE | USER | pa
  }

  /** `pte_paddr` */
  function PteAddress(pte: bv64): bv64 {
    pte & ADDRESS
  }

  /** `pte_is_large` */
  predicate IsLarge(pte: bv64, level: nat) {
    level > 0 && pte & PAGESIZE != 0
  }

  /** A physical address of a page. */
  predicate IsFrame(pa: bv64) {
    pa & ADDRESS == pa
  }

  /** The lowest bit of a large page's address is set. */
  predicate HasLowBit(pa: bv64) {
    pa & PAT_LARGE != 0
  }

  function Join(bits: bv64, pa: bv64): bv64 {
    bits | pa
  }

  /** An entry gives back its address, except that the memory type of large
      write-combining pages sits on the lowest bit of the address. */
  lemma AddressRoundTrip(level: nat, pa: bv64, prot: Prot, cache: Cache)
    requires IsFrame(pa)
    ensures PteAddress(PteMake(level, pa, prot, cache)) == pa <==> level == 0 || cache != WC || HasLowBit(pa)
    ensures PteAddress(PteMakeDir(pa)) == pa
  {
    hide PteMake, PteMakeDir, PatBits, PteAddress, IsFrame, Extra, Join, HasLowBit;
    AddressIs(level, pa, prot, cache);
    ExtraSame(level, pa, cache);
    DirAddress(pa);
  }

  lemma ExtraSame(level: nat, pa: bv64, cache: Cache)
    ensures Join(Extra(level, cache), pa) == pa <==> level == 0 || cache != WC || HasLowBit(pa)
  {
    hide Join, HasLowBit;
    JoinLow(pa);
  }

  lemma JoinLow(pa: bv64)
    ensures Join(PAT_LARGE, pa) == pa <==> HasLowBit(pa)
    ensures Join(0, pa) == pa
  {
  }

  /** The address bits that the flags take. */
  function Extra(level: nat, cache: Cache): bv64 {
    if level > 0 && cache == WC then PAT_LARGE else 0
  }

  lemma AddressIs(level: nat, pa: bv64, prot: Prot, cache: Cache)
    requires IsFrame(pa)
    ensures PteAddress(PteMake(level, pa, prot, cache)) == Join(Extra(level, cache), pa)
  {
    hide PteMake, PteAddress, IsFrame, Extra, Join;
    FlagsAddress(level, prot, cache);
    Split(level, pa, prot, cache);
    Combined(PteMake(level, 0, prot, cache), pa);
  }

  lemma Combined(flags: bv64, pa: bv64)
    requires IsFrame(pa)
    ensures PteAddress(Join(flags, pa)) == Join(PteAddress(flags), pa)
  {
    hide PteAddress, Join, IsFrame;
    AddressBits(Join(flags, pa));
    AddressBits(flags);
    JoinBits(flags, pa);
    JoinBits(PteAddress(flags), pa);
    FrameBits(pa);
    Distribute(flags, pa, ADDRESS);
  }

  // The definitions one by one, so that no proof unfolds them all at once.

  lemma AddressBits(pte: bv64)
    ensures PteAddress(pte) == pte & ADDRESS
  {
  }

  lemma JoinBits(bits: bv64, pa: bv64)
    ensures Join(bits, pa) == bits | pa
  {
  }

  lemma FrameBits(pa: bv64)
    requires IsFrame(pa)
    ensures pa & ADDRESS == pa
  {
  }

  lemma Distribute(x: bv64, y: bv64, mask: bv64)
    ensures (x | y) & mask == (x & mask) | (y & mask)
  {
  }

  lemma DirAddress(pa: bv64)
    requires IsFrame(pa)
    ensures PteAddress(PteMakeDir(pa)) == pa
  {
  }

  lemma Split(level: nat, pa: bv64, prot: Prot, cache: Cache)
    ensures PteMake(level, pa, prot, cache) == Join(PteMake(level, 0, prot, cache), pa)
  {
  }

  lemma FlagsAddress(level: nat, prot: Prot, cache: Cache)
    ensures PteAddress(PteMake(level, 0, prot, cache)) == Extra(level, cache)
  {
    hide PteMake, PteAddress, PatBits, Extra;
    OnlyPat(level, prot, cache);
    PatAddress(level, cache);
  }

  lemma OnlyPat(level: nat, prot: Prot, cache: Cache)
    ensures PteAddress(PteMake(level, 0, prot, cache)) == PteAddress(PatBits(level, cache))
  {
    hide PatBits;
  }

  lemma PatAddress(level: nat, cache: Cache)
    ensures PteAddress(PatBits(level, cache)) == Extra(level, cache)
  {
  }

  /** An entry is read back as the kind it was made as; nothing readable or
      writable reads as an empty entry. */
  lemma KindRoundTrip(level: nat, pa: bv64, prot: Prot, cache: Cache)
    requires IsFrame(pa)
    ensures IsLarge(PteMake(level, pa, prot, cache), level) <==> level > 0
    ensures !IsLarge(PteMakeDir(pa), level) && PteMakeDir(pa) != 0
    ensures prot.read || prot.write ==> PteMake(level, pa, prot, cache) & PRESENT != 0
    ensures PteMake(level, pa, prot, cache) == 0 <==>
      level == 0 && pa == 0 && !prot.read && !prot.write && prot.execute && !prot.user && !prot.global && cache == WB
  {
    hide PteMake, PteMakeDir, PatBits, IsFrame, IsLarge;
    LargeKind(level, pa, prot, cache);
    DirKind(level, pa);
    PresentKind(level, pa, prot, cache);
    ZeroKind(level, pa, prot, cache);
  }

  predicate HasBit(pte: bv64, bit: bv64) {
    pte & bit != 0
  }

  /** What the processor may do with a page is what was asked for: present if it
      may be read or written, writable, for user code, no-execute and global each
      if and only if so. */
  lemma ProtectionRoundTrip(level: nat, pa: bv64, prot: Prot, cache: Cache)
    requires IsFrame(pa)
    ensures HasBit(PteMake(level, pa, prot, cache), PRESENT) <==> prot.read || prot.write
    ensures HasBit(PteMake(level, pa, prot, cache), WRITE) <==> prot.write
    ensures HasBit(PteMake(level, pa, prot, cache), USER) <==> prot.user
    ensures HasBit(PteMake(level, pa, prot, cache), NO_EXECUTE) <==> !prot.execute
    ensures HasBit(PteMake(level, pa, prot, cache), GLOBAL) <==> prot.global
    ensures HasBit(PteMakeDir(pa), PRESENT) && HasBit(PteMakeDir(pa), WRITE) && HasBit(PteMakeDir(pa), USER)
    ensures !HasBit(PteMakeDir(pa), NO_EXECUTE)
  {
    hide PteMake, PteMakeDir, PatBits, IsFrame, HasBit;
    PresentBit(level, pa, prot, cache);
    WriteBit(level, pa, prot, cache);
    UserBit(level, pa, prot, cache);
    NoExecuteBit(level, pa, prot, cache);
    GlobalBit(level, pa, prot, cache);
    DirBits(pa);
  }

  lemma PresentBit(level: nat, pa: bv64, prot: Prot, cache: Cache)
    requires IsFrame(pa)
    ensures HasBit(PteMake(level, pa, prot, cache), PRESENT) <==> prot.read || prot.write
  {
  }

  lemma WriteBit(level: nat, pa: bv64, prot: Prot, cache: Cache)
    requires IsFrame(pa)
    ensures HasBit(PteMake(level, pa, prot, cache), WRITE) <==> prot.write
  {
  }

  lemma UserBit(level: nat, pa: bv64, prot: Prot, cache: Cache)
    requires IsFrame(pa)
    ensures HasBit(PteMake(level, pa, prot, cache), USER) <==> prot.user
  {
  }

  lemma NoExecuteBit(level: nat, pa: bv64, prot: Prot, cache: Cache)
    requires IsFrame(pa)
    ensures HasBit(PteMake(level, pa, prot, cache), NO_EXECUTE) <==> !prot.execute
  {
  }

  lemma GlobalBit(level: nat, pa: bv64, prot: Prot, cache: Cache)
    requires IsFrame(pa)
    ensures HasBit(PteMake(level, pa, prot, cache), GLOBAL) <==> prot.global
  {
  }

  lemma DirBits(pa: bv64)
    ensures HasBit(PteMakeDir(pa), PRESENT) && HasBit(PteMakeDir(pa), WRITE) && HasBit(PteMakeDir(pa), USER)
    ensures IsFrame(pa) ==> !HasBit(PteMakeDir(pa), NO_EXECUTE)
  {
  }

  lemma LargeKind(level: nat, pa: bv64, prot: Prot, cache: Cache)
    ensures IsLarge(PteMake(level, pa, prot, cache), level) <==> level > 0
  {
  }

  lemma DirKind(level: nat, pa: bv64)
    requires IsFrame(pa)
    ensures !IsLarge(PteMakeDir(pa), level) && PteMakeDir(pa) != 0
  {
  }

  lemma PresentKind(level: nat, pa: bv64, prot: Prot, cache: Cache)
    ensures prot.read || prot.write ==> PteMake(level, pa, prot, cache) & PRESENT != 0
  {
  }

  lemma ZeroKind(level: nat, pa: bv64, prot: Prot, cache: Cache)
    ensures PteMake(level, pa, prot, cache) == 0 <==>
      level == 0 && pa == 0 && !prot.read && !prot.write && prot.execute && !prot.user && !prot.global && cache == WB
  {
  }

  /** Uncached memory gets the bits of write-through memory; all other types differ. */
  lemma TypesEncoded(level: nat, a: Cache, b: Cache)
    ensures PatBits(level, a) == PatBits(level, b) <==> a == b || (a.UC? && b.WT?) || (a.WT? && b.UC?)
  {
  }
}
