/** TLB refill, demand allocation and the loads and stores of user programs (kern/tlbex.c, kern/tlb_asm.S). */
module Tlb {
  import opened Mmu
  import opened Pmap

  // A kernel panic ends the run; a store through an entry without PTE_D raises TLB Mod.
  datatype Refill = Entry(pte: Word) | Panic
  datatype Loaded = Loaded(w: Word) | LoadPanic
  datatype Stored = Stored | TlbMod | StorePanic

  /** The pages passive_alloc refuses below UTOP: those under UTEMP and the one above the stack. */
  predicate NoDemand(va: nat) {
    va < UTEMP || USTACKTOP <= va < USTACKTOP + BY2PG
  }

  /** When a first touch of `va` panics: the address is refused, or memory does not suffice. */
  predicate Panics(free: nat, tables: set<(nat, nat)>, e: nat, va: nat) {
    NoDemand(va) || Short(free, tables, e, Vpn(va))
  }

  /** A zeroed page from the head of the free list has been mapped writable at `va`, and nothing else. */
  ghost predicate DemandMapped(m: Machine, mem: seq<Frame>, freeList: seq<nat>, tlb: map<(nat, nat), Word>,
                               tabs: Tables, pt: PageTable, role: seq<Role>, va: nat, asid: nat, e: nat)
    reads m
  {
    && !NoDemand(va) && freeList != [] && var p := freeList[0];
    && p < m.npage <= 0x10_0000 && |m.mem| == |m.role| == |role| == m.npage
    && role[p] == Free && m.role[p] == Data && m.mem[p] == ZeroFrame()
    && m.pt == pt[(e, Vpn(va)) := Word(p, NOFLAGS.(d := true, v := true))]
    && m.SameData(mem, role) && m.NoNewData(role, p)
    && m.tlb == tlb - {(asid, Vpn(va))} && m.tabs.Keys == tabs.Keys + {(e, Pdx(Vpn(va)))}
  }

  method PassiveAlloc(m: Machine, va: nat, pgdir: nat, asid: nat, ghost e: nat) returns (panic: bool)
    requires m.Valid() && va < UTOP && e in m.envs && m.envs[e] == EnvVm(pgdir, asid) && (e, Vpn(va)) !in m.pt
    modifies m`mem, m`ppRef, m`freeList, m`tlb, m`pt, m`role, m`tabs
    ensures m.Valid()
    ensures panic <==> Panics(|old(m.freeList)|, old(m.tabs).Keys, e, va)
    ensures !panic ==>
      DemandMapped(m, old(m.mem), old(m.freeList), old(m.tlb), old(m.tabs), old(m.pt), old(m.role), va, asid, e)
  {
    hide WalkOk, RolesOk, AsidsOk, TlbOk, WindowOk;
    if va < UTEMP {
      return true;
    }
    if va >= USTACKTOP && va < USTACKTOP + BY2PG {
      return true;
    }
    var r, p := m.PageAlloc();
    if r != 0 {
      return true;
    }
    r := m.PageInsert(pgdir, asid, p, Vpn(va), NOFLAGS.(d := true), e);
    panic := r != 0;
  }

  /** _do_tlb_refill for the running environment `e`, whose directory is cur_pgdir. */
  method DoTlbRefill(m: Machine, va: nat, pgdir: nat, asid: nat, ghost e: nat) returns (r: Refill)
    requires m.Valid() && va < UTOP && e in m.envs && m.envs[e] == EnvVm(pgdir, asid)
    modifies m`mem, m`ppRef, m`freeList, m`tlb, m`pt, m`role, m`tabs
    ensures m.Valid()
    ensures r.Entry? ==> (e, Vpn(va)) in m.pt && m.pt[(e, Vpn(va))] == r.pte
    ensures (e, Vpn(va)) in old(m.pt) ==> r.Entry? && m.pt == old(m.pt) && m.mem == old(m.mem) && m.tlb == old(m.tlb)
    ensures (e, Vpn(va)) in old(m.pt) ==>
      m.role == old(m.role) && m.freeList == old(m.freeList) && m.tabs == old(m.tabs)
    ensures (e, Vpn(va)) !in old(m.pt) ==> (r == Panic <==> Panics(|old(m.freeList)|, old(m.tabs).Keys, e, va))
    ensures (e, Vpn(va)) !in old(m.pt) && r.Entry? ==>
      DemandMapped(m, old(m.mem), old(m.freeList), old(m.tlb), old(m.tabs), old(m.pt), old(m.role), va, asid, e)
  {
    hide WalkOk, RolesOk, AsidsOk, TlbOk, WindowOk;
    var pp, pte := m.PageLookup(pgdir, Vpn(va), e);
    while pte == NoPte
      invariant m.Valid() && e in m.envs && m.envs[e] == EnvVm(pgdir, asid)
      invariant (e, Vpn(va)) !in m.pt ==> pte == NoPte
      invariant (e, Vpn(va)) in m.pt ==>
        && pp == m.pt[(e, Vpn(va))].hi && (e, Pdx(Vpn(va))) in m.tabs
        && pte == Pte(m.tabs[(e, Pdx(Vpn(va)))], Ptx(Vpn(va)))
      invariant pte == NoPte || (e, Vpn(va)) in old(m.pt) ==>
        && m.pt == old(m.pt) && m.mem == old(m.mem) && m.tlb == old(m.tlb) && m.role == old(m.role)
        && m.freeList == old(m.freeList) && m.tabs == old(m.tabs)
      invariant pte != NoPte && (e, Vpn(va)) !in old(m.pt) ==> !Panics(|old(m.freeList)|, old(m.tabs).Keys, e, va)
      invariant pte != NoPte && (e, Vpn(va)) !in old(m.pt) ==>
        DemandMapped(m, old(m.mem), old(m.freeList), old(m.tlb), old(m.tabs), old(m.pt), old(m.role), va, asid, e)
      decreases pte == NoPte
    {
      var panic := PassiveAlloc(m, va, pgdir, asid, e);
      if panic {
        return Panic;
      }
      pp, pte := m.PageLookup(pgdir, Vpn(va), e);
    }
    WalkPte(m.mem, m.envs, m.tabs, m.pt, e, Vpn(va));
    r := Entry(m.mem[pte.frame][pte.index]);
  }

  /** tlbwr after any evictions: the new entry is the environment's own, so the TLB stays coherent. */
  lemma TlbAdd(tlb: map<(nat, nat), Word>, evict: set<(nat, nat)>, asidUsed: seq<bool>, envs: map<nat, EnvVm>,
               owner: map<nat, nat>, pt: PageTable, e: nat, v: nat)
    requires TlbOk(tlb, envs, owner, pt) && AsidsOk(asidUsed, envs, owner)
    requires e in envs && (e, v) in pt
    ensures TlbOk((tlb - evict)[(envs[e].asid, v) := pt[(e, v)]], envs, owner, pt)
  {
  }

  lemma TlbHit(tlb: map<(nat, nat), Word>, asidUsed: seq<bool>, envs: map<nat, EnvVm>, owner: map<nat, nat>,
               pt: PageTable, e: nat, v: nat)
    requires TlbOk(tlb, envs, owner, pt) && AsidsOk(asidUsed, envs, owner)
    requires e in envs && v < NVPN && (envs[e].asid, v) in tlb
    ensures (e, v) in pt && pt[(e, v)] == tlb[(envs[e].asid, v)]
  {
  }

  /**
    The translation the processor uses for a user address: the TLB entry if there is one, else the
    entry do_tlb_refill puts into the TLB, evicting what `evict` says. The result is always the
    environment's current page table entry.
   */
  method Translate(m: Machine, va: nat, evict: set<(nat, nat)>, ghost e: nat, pgdir: nat, asid: nat) returns (r: Refill)
    requires m.Valid() && va < UTOP && e in m.envs && m.envs[e] == EnvVm(pgdir, asid)
    modifies m`mem, m`ppRef, m`freeList, m`tlb, m`pt, m`role, m`tabs
    ensures m.Valid()
    ensures r.Entry? ==> (e, Vpn(va)) in m.pt && m.pt[(e, Vpn(va))] == r.pte
    ensures (e, Vpn(va)) in old(m.pt) ==>
      && r.Entry? && m.pt == old(m.pt) && m.mem == old(m.mem) && m.role == old(m.role)
      && m.freeList == old(m.freeList) && m.tabs == old(m.tabs)
    ensures (e, Vpn(va)) !in old(m.pt) ==> (r == Panic <==> Panics(|old(m.freeList)|, old(m.tabs).Keys, e, va))
    ensures (e, Vpn(va)) !in old(m.pt) && r.Entry? ==>
      Demanded(m, old(m.mem), old(m.tabs), old(m.pt), old(m.role), va, e, ZeroFrame())
    ensures (asid, Vpn(va)) in old(m.tlb) ==> m.tlb == old(m.tlb)
    ensures r.Entry? ==> (asid, Vpn(va)) in m.tlb && m.tlb[(asid, Vpn(va))] == r.pte
  {
    hide WalkOk, RolesOk, AsidsOk, TlbOk, WindowOk;
    if (asid, Vpn(va)) in m.tlb {
      TlbHit(m.tlb, m.asidUsed, m.envs, m.owner, m.pt, e, Vpn(va));
      return Entry(m.tlb[(asid, Vpn(va))]);
    }
    r := DoTlbRefill(m, va, pgdir, asid, e);
    if r.Entry? {
      TlbAdd(m.tlb, evict, m.asidUsed, m.envs, m.owner, m.pt, e, Vpn(va));
      WindowLess(m.tlb, (m.tlb - evict)[(asid, Vpn(va)) := r.pte], m.envs, m.owner, m.tabs, m.tabs);
      m.tlb := (m.tlb - evict)[(asid, Vpn(va)) := r.pte];
    }
  }

  // ---- the window on a program's own tables ----

  lemma WindowAdd(tlb: map<(nat, nat), Word>, evict: set<(nat, nat)>, asidUsed: seq<bool>, envs: map<nat, EnvVm>,
                  owner: map<nat, nat>, tabs: Tables, pt: PageTable, e: nat, i: nat, w: Word)
    requires TlbOk(tlb, envs, owner, pt) && WindowOk(tlb, envs, owner, tabs) && AsidsOk(asidUsed, envs, owner)
    requires e in envs && WindowPage(envs, tabs, e, VPN_UVPT + i, w.hi)
    ensures var tlb' := (tlb - evict)[(envs[e].asid, VPN_UVPT + i) := w];
      TlbOk(tlb', envs, owner, pt) && WindowOk(tlb', envs, owner, tabs)
  {
  }

  lemma WindowHit(tlb: map<(nat, nat), Word>, asidUsed: seq<bool>, envs: map<nat, EnvVm>, owner: map<nat, nat>,
                  tabs: Tables, e: nat, i: nat)
    requires WindowOk(tlb, envs, owner, tabs) && AsidsOk(asidUsed, envs, owner) && e in envs
    requires (envs[e].asid, VPN_UVPT + i) in tlb
    ensures WindowPage(envs, tabs, e, VPN_UVPT + i, tlb[(envs[e].asid, VPN_UVPT + i)].hi)
  {
  }

  lemma SelfEntry(mem: seq<Frame>, envs: map<nat, EnvVm>, tabs: Tables, pt: PageTable, e: nat)
    requires WalkOk(mem, envs, tabs, pt) && e in envs
    ensures envs[e].pgdir < |mem|
    ensures mem[envs[e].pgdir][PDX_UVPT].lo.v && mem[envs[e].pgdir][PDX_UVPT].hi == envs[e].pgdir
  {
  }

  /**
    The translation of page `i` of the window at UVPT, for a user table or the directory itself: the TLB entry if
    there is one, else what do_tlb_refill finds by walking the directory, which names itself there. It is always the
    table that the running environment has now; without one, passive_alloc panics.
   */
  method Window(m: Machine, i: nat, evict: set<(nat, nat)>, ghost e: nat, pgdir: nat, asid: nat) returns (r: Refill)
    requires m.Valid() && e in m.envs && m.envs[e] == EnvVm(pgdir, asid) && (i < NPD || i == PDX_UVPT)
    modifies m`tlb
    ensures m.Valid()
    ensures i < NPD ==> (r.Entry? <==> (e, i) in m.tabs) && (r.Entry? ==> r.pte.hi == m.tabs[(e, i)])
    ensures i == PDX_UVPT ==> r.Entry? && r.pte.hi == pgdir
    ensures r == Panic || (asid, VPN_UVPT + i) in old(m.tlb) ==> m.tlb == old(m.tlb)
    ensures r.Entry? ==> (asid, VPN_UVPT + i) in m.tlb && m.tlb[(asid, VPN_UVPT + i)] == r.pte
  {
    hide WalkOk, RolesOk, AsidsOk, TlbOk, WindowOk;
    if (asid, VPN_UVPT + i) in m.tlb {
      WindowHit(m.tlb, m.asidUsed, m.envs, m.owner, m.tabs, e, i);
      return Entry(m.tlb[(asid, VPN_UVPT + i)]);
    }
    SelfEntry(m.mem, m.envs, m.tabs, m.pt, e);
    if i < NPD { WalkPde(m.mem, m.envs, m.tabs, m.pt, e, i); }
    var pde := m.mem[pgdir][PDX_UVPT];
    var pte := m.mem[pde.hi][i];
    if !pte.lo.v {
      return Panic;
    }
    WindowAdd(m.tlb, evict, m.asidUsed, m.envs, m.owner, m.tabs, m.pt, e, i, pte);
    m.tlb := (m.tlb - evict)[(asid, VPN_UVPT + i) := pte];
    r := Entry(pte);
  }

  /** vpd[i], as a program reads it: its own directory entry. */
  method ReadVpd(m: Machine, i: nat, evict: set<(nat, nat)>, ghost e: nat, pgdir: nat, asid: nat) returns (w: Word)
    requires m.Valid() && e in m.envs && m.envs[e] == EnvVm(pgdir, asid) && i < NPD
    modifies m`tlb
    ensures m.Valid()
    ensures (w.lo.v <==> (e, i) in m.tabs) && (w.lo.v ==> w.hi == m.tabs[(e, i)])
  {
    hide WalkOk, RolesOk, AsidsOk, TlbOk, WindowOk;
    WalkPde(m.mem, m.envs, m.tabs, m.pt, e, i);
    var t := Window(m, PDX_UVPT, evict, e, pgdir, asid);
    w := m.mem[t.pte.hi][i];
  }

  /** vpt[vpn], as a program reads it: its own page table entry, where it has the table. */
  method ReadVpt(m: Machine, vpn: nat, evict: set<(nat, nat)>, ghost e: nat, pgdir: nat, asid: nat) returns (r: Loaded)
    requires m.Valid() && e in m.envs && m.envs[e] == EnvVm(pgdir, asid) && vpn < NVPN
    modifies m`tlb
    ensures m.Valid()
    ensures r.Loaded? <==> (e, Pdx(vpn)) in m.tabs
    ensures r.Loaded? ==> (r.w.lo.v <==> (e, vpn) in m.pt) && (r.w.lo.v ==> r.w == m.pt[(e, vpn)])
  {
    hide WalkOk, RolesOk, AsidsOk, TlbOk, WindowOk;
    WalkPte(m.mem, m.envs, m.tabs, m.pt, e, vpn);
    var t := Window(m, Pdx(vpn), evict, e, pgdir, asid);
    r := if t == Panic then LoadPanic else Loaded(m.mem[t.pte.hi][Ptx(vpn)]);
  }

  /** What demand allocation at `va` changes of the mappings and of the data pages; `f` is in the new page. */
  ghost predicate Demanded(m: Machine, mem: seq<Frame>, tabs: Tables, pt: PageTable, role: seq<Role>, va: nat, e: nat,
                           f: Frame)
    reads m
  {
    && !NoDemand(va) && m.tabs.Keys == tabs.Keys + {(e, Pdx(Vpn(va)))}
    && |m.mem| == |m.role| == |role| == m.npage
    && exists p: Hi {:trigger role[p]} :: p < m.npage && role[p] == Free && m.role[p] == Data && m.mem[p] == f
         && m.pt == pt[(e, Vpn(va)) := Word(p, NOFLAGS.(d := true, v := true))]
         && m.SameData(mem, role) && m.NoNewData(role, p)
  }

  function Offset(va: nat): (w: nat)
    ensures w < NPTE
  {
    va % BY2PG / 4
  }

  /** A load reads the word at the offset of `va` in the page mapped there. */
  method Load(m: Machine, va: nat, evict: set<(nat, nat)>, ghost e: nat, pgdir: nat, asid: nat) returns (r: Loaded)
    requires m.Valid() && va < UTOP && e in m.envs && m.envs[e] == EnvVm(pgdir, asid)
    modifies m`mem, m`ppRef, m`freeList, m`tlb, m`pt, m`role, m`tabs
    ensures m.Valid()
    ensures r.Loaded? ==> (e, Vpn(va)) in m.pt && var p := m.pt[(e, Vpn(va))].hi;
      p < m.npage && m.role[p] == Data && m.mem[p][Offset(va)] == r.w
    ensures (e, Vpn(va)) in old(m.pt) ==>
      && r.Loaded? && m.pt == old(m.pt) && m.mem == old(m.mem) && m.role == old(m.role)
      && m.freeList == old(m.freeList) && m.tabs == old(m.tabs)
    ensures (e, Vpn(va)) !in old(m.pt) ==> (r == LoadPanic <==> Panics(|old(m.freeList)|, old(m.tabs).Keys, e, va))
    ensures (e, Vpn(va)) !in old(m.pt) && r.Loaded? ==>
      Demanded(m, old(m.mem), old(m.tabs), old(m.pt), old(m.role), va, e, ZeroFrame()) && r.w == ZERO
  {
    hide WalkOk, RolesOk, AsidsOk, TlbOk, WindowOk;
    var t := Translate(m, va, evict, e, pgdir, asid);
    if t == Panic {
      return LoadPanic;
    }
    WalkPte(m.mem, m.envs, m.tabs, m.pt, e, Vpn(va));
    RoleOf(m.ppRef, m.freeList, m.envs, m.tabs, m.pt, m.role, e, Vpn(va));
    r := Loaded(m.mem[t.pte.hi][Offset(va)]);
  }

  /** A store changes one word of the page mapped at `va`, when that mapping has PTE_D. */
  method Store(m: Machine, va: nat, w: Word, evict: set<(nat, nat)>, ghost e: nat, pgdir: nat, asid: nat)
    returns (r: Stored)
    requires m.Valid() && va < UTOP && e in m.envs && m.envs[e] == EnvVm(pgdir, asid)
    modifies m`mem, m`ppRef, m`freeList, m`tlb, m`pt, m`role, m`tabs
    ensures m.Valid()
    ensures (e, Vpn(va)) in old(m.pt) ==> 
      && m.pt == old(m.pt) && m.role == old(m.role) && r != StorePanic
      && m.freeList == old(m.freeList) && m.tabs == old(m.tabs)
    ensures (e, Vpn(va)) in old(m.pt) ==> var pte := old(m.pt)[(e, Vpn(va))];
      && pte.hi < m.npage && m.role[pte.hi] == Data
      && (r == Stored <==> pte.lo.d)
      && (r == Stored ==>
           m.mem == old(m.mem)[pte.hi := old(m.mem)[pte.hi][Offset(va) := w]])
      && (r == TlbMod ==> m.mem == old(m.mem))
    ensures (e, Vpn(va)) !in old(m.pt) ==>
      r != TlbMod && (r == StorePanic <==> Panics(|old(m.freeList)|, old(m.tabs).Keys, e, va))
    ensures (e, Vpn(va)) !in old(m.pt) && r == Stored ==>
      Demanded(m, old(m.mem), old(m.tabs), old(m.pt), old(m.role), va, e, ZeroFrame()[Offset(va) := w])
  {
    hide WalkOk, RolesOk, AsidsOk, TlbOk, WindowOk;
    var t := Translate(m, va, evict, e, pgdir, asid);
    if t == Panic {
      return StorePanic;
    }
    WalkPte(m.mem, m.envs, m.tabs, m.pt, e, Vpn(va));
    RoleOf(m.ppRef, m.freeList, m.envs, m.tabs, m.pt, m.role, e, Vpn(va));
    if !t.pte.lo.d {
      return TlbMod;
    }
    ghost var f: Frame := m.mem[t.pte.hi][Offset(va) := w];
    DataWriteWalk(m.mem, m.ppRef, m.freeList, m.envs, m.tabs, m.pt, m.role, t.pte.hi, f);
    m.mem := m.mem[t.pte.hi := m.mem[t.pte.hi][Offset(va) := w]];
    r := Stored;
  }
}
