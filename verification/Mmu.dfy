/**
  Address-space layout, page-table words and address arithmetic (include/mmu.h).
  A 32-bit page-table word is split at bit 12 into a page number and twelve flag bits.
*/
module Mmu {

  datatype Option<+T> = None | Some(value: T)

  type Addr = a: nat | a < 0x1_0000_0000

  const BY2PG: nat := 4096
  const PDMAP: nat := 0x40_0000
  const ENTRIES: nat := 1024

  const ULIM: nat := 0x8000_0000
  const UVPT: nat := ULIM - PDMAP
  const UPAGES: nat := UVPT - PDMAP
  const UENVS: nat := UPAGES - PDMAP
  const UTOP: nat := UENVS
  const USTACKTOP: nat := UTOP - 2 * BY2PG
  const UTEXT: nat := PDMAP
  const UCOW: nat := UTEXT - BY2PG
  const UTEMP: nat := UCOW - BY2PG

  /** Directory indices of the layout: user entries lie below PDX_UTOP. */
  const PDX_UTOP: nat := 509
  const PDX_UPAGES: nat := 510
  const PDX_UVPT: nat := 511
  const PDX_ULIM: nat := 512

  type Flags = bv12

  const PTE_COW: Flags := 0x001
  const PTE_LIBRARY: Flags := 0x004
  const PTE_G: Flags := 0x100
  const PTE_V: Flags := 0x200
  const PTE_D: Flags := 0x400

  /** The u_int perm of a system call: its low twelve bits, and the bits it has above them. */
  datatype Perm = Perm(hi: bv20, flags: Flags)

  function Plain(flags: Flags): Perm {
    Perm(0, flags)
  }

  /** The page number in page2pa(p) | perm: bits of perm above the flags change it. */
  function OrPage(p: nat, hi: bv20): nat {
    if hi == 0 || p >= 0x10_0000 then p else ((p as bv20) | hi) as nat
  }

  datatype Entry = Entry(ppn: nat, flags: Flags)

  const ZERO: Entry := Entry(0, 0)

  predicate IsValid(e: Entry) {
    e.flags & PTE_V != 0
  }

  predicate IsGlobal(e: Entry) {
    e.flags & PTE_G != 0
  }

  predicate IsWritable(e: Entry) {
    e.flags & PTE_D != 0
  }

  /** is_illegal_va: what the system calls refuse. */
  predicate IllegalVa(va: nat) {
    va < UTEMP || va >= UTOP
  }

  function Pdx(va: Addr): nat {
    va / PDMAP % ENTRIES
  }

  function Ptx(va: Addr): nat {
    va / BY2PG % ENTRIES
  }

  function Vpn(va: Addr): nat {
    va / BY2PG
  }

  /** The two indices name a virtual page exactly: no two pages share both. */
  lemma IndicesNamePage(va: Addr, vb: Addr)
    ensures Pdx(va) < ENTRIES && Ptx(va) < ENTRIES
    ensures Pdx(va) * ENTRIES + Ptx(va) == Vpn(va)
    ensures Pdx(va) == Pdx(vb) && Ptx(va) == Ptx(vb) <==> Vpn(va) == Vpn(vb)
  {
    assert va / PDMAP == Vpn(va) / ENTRIES;
    assert vb / PDMAP == Vpn(vb) / ENTRIES;
  }

  /** The layout constants and the directory indices agree. */
  lemma LayoutIndices(va: Addr)
    ensures va < UTOP <==> Pdx(va) < PDX_UTOP
    ensures UENVS <= va < UPAGES <==> Pdx(va) == PDX_UTOP
    ensures UPAGES <= va < UVPT <==> Pdx(va) == PDX_UPAGES
    ensures UVPT <= va < ULIM <==> Pdx(va) == PDX_UVPT
  {
  }
}
