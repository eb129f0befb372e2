/** The memory layout and the words of a page table (include/mmu.h). */
module Mmu {

  const BY2PG: nat := 0x1000
  const NPTE: nat := 1024          // entries of a page table or page directory
  const UTEMP: nat := 0x003f_e000
  const UCOW: nat := 0x003f_f000
  const UTOP: nat := 0x7f40_0000
  const USTACKTOP: nat := 0x7f3f_e000
  const NASID: nat := 64

  // The same addresses as virtual page numbers, and PDX(UTOP).
  const NVPN: nat := 0x7f400       // VPN(UTOP)
  const NPD: nat := 0x1fd          // PDX(UTOP)
  const UTEMP_VPN: nat := 0x3fe
  const UCOW_VPN: nat := 0x3ff
  const PDX_UVPT: nat := 0x1ff     // PDX(UVPT), and VPN(UVPT): the window on a program's own tables
  const VPN_UVPT: nat := 0x7fc00
  const USTACK_VPN: nat := 0x7f3fe // VPN(USTACKTOP)

  const E_NO_MEM: int := 4
  const E_INVAL: int := 3

  // The low 12 bits of a word: PTE_V, PTE_D, PTE_COW, PTE_LIBRARY and the other eight bits.
  type Rest = x: nat | x < 0x100
  datatype Flags = Flags(v: bool, d: bool, cow: bool, lib: bool, rest: Rest)

  // A 32-bit word, split where a page table entry is split: page number and flags.
  type Hi = x: nat | x < 0x10_0000
  datatype Word = Word(hi: Hi, lo: Flags)

  const NOFLAGS: Flags := Flags(false, false, false, false, 0)
  const ZERO: Word := Word(0, NOFLAGS)

  function ZeroFrame(): seq<Word> {
    seq(NPTE, _ => ZERO)
  }

  // The contents of one physical page, as words.
  type Frame = f: seq<Word> | |f| == NPTE witness ZeroFrame()

  function Pdx(vpn: nat): nat { vpn / NPTE }
  function Ptx(vpn: nat): nat { vpn % NPTE }
  function Vpn(va: nat): nat { va / BY2PG }

  predicate IllegalVa(va: nat) {
    va < UTEMP || va >= UTOP
  }
}
