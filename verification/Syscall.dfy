/** The memory system calls (kern/syscall_all.c), on environments already found and permitted. */
module SyscallMem {
  import opened Mmu
  import opened Pmap
  import Cow

  /** The state as the copy-on-write machine sees it, no handler being under way. */
  ghost function View(m: Machine): Cow.Lazy
    reads m
  {
    Cow.Lazy(m.pt, m.mem, map[])
  }

  /** A page is used by a user entry exactly when its role says so. */
  lemma DataIffUsed(ppRef: seq<nat>, freeList: seq<nat>, envs: map<nat, EnvVm>, tabs: Tables, pt: PageTable,
                    role: seq<Role>, p: nat)
    requires RolesOk(ppRef, freeList, envs, tabs, pt, role) && p < |role|
    ensures role[p] == Data <==> Cow.Used(pt, p)
  {
    if role[p] == Data {
      assert CountOk(p, ppRef[p], envs, tabs, pt, role[p]);
      assert UserRefs(pt, p) != {};
      var k :| k in UserRefs(pt, p);
      assert k == (k.0, k.1) && (k.0, k.1) in pt && pt[(k.0, k.1)].hi == p;
    }
    if role[p] != Data {
      forall k: Cow.Key | k in pt ensures pt[k].hi != p {
        assert k == (k.0, k.1) && role[pt[(k.0, k.1)].hi] == Data;
      }
    }
  }

  /** Kept roles and kept data pages are what the copy-on-write machine calls kept memory. */
  lemma KeepData(m: Machine, mem: seq<Frame>, pt: PageTable, role: seq<Role>, ppRef: seq<nat>, freeList: seq<nat>,
                 envs: map<nat, EnvVm>, tabs: Tables)
    requires m.Valid() && |mem| == |role| == m.npage && RolesOk(ppRef, freeList, envs, tabs, pt, role)
    requires m.SameData(mem, role)
    ensures Cow.Keep(Cow.Lazy(pt, mem, map[]), View(m))
  {
    hide WalkOk, RolesOk, AsidsOk, TlbOk, WindowOk;
    forall p | 0 <= p < |mem| && Cow.Used(pt, p) && Cow.Used(m.pt, p) ensures m.mem[p] == mem[p] {
      RolesLen(ppRef, freeList, envs, tabs, pt, role);
      DataIffUsed(ppRef, freeList, envs, tabs, pt, role, p);
      DataIffUsed(m.ppRef, m.freeList, m.envs, m.tabs, m.pt, m.role, p);
    }
  }

  lemma FreeUnused(ppRef: seq<nat>, freeList: seq<nat>, envs: map<nat, EnvVm>, tabs: Tables, pt: PageTable,
                   role: seq<Role>)
    requires RolesOk(ppRef, freeList, envs, tabs, pt, role) && freeList != []
    ensures freeList[0] < |role| && role[freeList[0]] == Free && !Cow.Used(pt, freeList[0])
  {
    assert freeList[0] in freeList;
    DataIffUsed(ppRef, freeList, envs, tabs, pt, role, freeList[0]);
  }

  lemma RolesLen(ppRef: seq<nat>, freeList: seq<nat>, envs: map<nat, EnvVm>, tabs: Tables, pt: PageTable,
                 role: seq<Role>)
    requires RolesOk(ppRef, freeList, envs, tabs, pt, role)
    ensures |ppRef| == |role|
  {
  }

  /** What sys_mem_alloc returns: two free pages always suffice, one does when the table is there. */
  function AllocResult(free: nat, tables: set<(nat, nat)>, e: nat, va: nat): int {
    if IllegalVa(va) then -E_INVAL else if Short(free, tables, e, Vpn(va)) then -E_NO_MEM else 0
  }

  /** When page_insert fails, the page taken for it is in nobody's use and not given back. */
  method SysMemAlloc(m: Machine, va: nat, perm: Flags, e: nat) returns (r: int)
    requires m.Valid() && e in m.envs
    modifies m`mem, m`ppRef, m`freeList, m`tlb, m`pt, m`role, m`tabs
    ensures m.Valid()
    ensures r == AllocResult(|old(m.freeList)|, old(m.tabs).Keys, e, va)
    ensures r != 0 ==> m.pt == old(m.pt) && m.tabs == old(m.tabs) && m.ppRef == old(m.ppRef)
    ensures r == -E_INVAL ==> m.freeList == old(m.freeList) && m.role == old(m.role) && m.mem == old(m.mem)
    ensures r == -E_NO_MEM ==>
      && m.freeList == [] && |old(m.freeList)| <= 1
      && if old(m.freeList) == [] then m.role == old(m.role)
         else old(m.freeList)[0] < |old(m.role)| && m.role == old(m.role)[old(m.freeList)[0] := Limbo]
    ensures m.SameData(old(m.mem), old(m.role))
    ensures r == 0 ==> !IllegalVa(va) && old(m.freeList) != [] && var p := old(m.freeList)[0];
      && p < m.npage && old(m.role)[p] == Free && m.role[p] == Data && m.mem[p] == ZeroFrame()
      && m.pt == old(m.pt)[(e, Vpn(va)) := Word(p, perm.(v := true))]
      && m.NoNewData(old(m.role), p) && m.tabs.Keys == old(m.tabs).Keys + {(e, Pdx(Vpn(va)))}
      && ((e, Vpn(va)) !in old(m.pt) ==> m.TableTaken(old(m.tabs), old(m.freeList)[1..], (e, Pdx(Vpn(va)))))
  {
    hide WalkOk, RolesOk, AsidsOk, TlbOk, WindowOk;
    if IllegalVa(va) {
      return -E_INVAL;
    }
    var pp: nat;
    r, pp := m.PageAlloc();
    if r != 0 {
      return -E_NO_MEM;
    }
    r := m.PageInsert(m.envs[e].pgdir, m.envs[e].asid, pp, Vpn(va), perm, e);
  }

  /** Mapping the source page at the destination would replace nothing but itself. */
  ghost predicate SamePage(pt: PageTable, src: nat, srcva: nat, dst: nat, dstva: nat) {
    && (src, Vpn(srcva)) in pt
    && ((dst, Vpn(dstva)) in pt ==> pt[(dst, Vpn(dstva))].hi == pt[(src, Vpn(srcva))].hi)
  }

  /** What sys_mem_map returns: memory is wanted only for a missing table. */
  function MapResult(free: nat, tables: set<(nat, nat)>, pt: PageTable, src: nat, srcva: nat, dst: nat,
                     dstva: nat): int
  {
    if IllegalVa(srcva) || IllegalVa(dstva) || (src, Vpn(srcva)) !in pt then -E_INVAL
    else if (dst, Pdx(Vpn(dstva))) !in tables && free == 0 then -E_NO_MEM
    else 0
  }

  method SysMemMap(m: Machine, src: nat, srcva: nat, dst: nat, dstva: nat, perm: Flags) returns (r: int)
    requires m.Valid() && src in m.envs && dst in m.envs
    modifies m`mem, m`ppRef, m`freeList, m`tlb, m`pt, m`role, m`tabs
    ensures m.Valid()
    ensures r == MapResult(|old(m.freeList)|, old(m.tabs).Keys, old(m.pt), src, srcva, dst, dstva)
    ensures r != 0 ==> m.pt == old(m.pt) && m.freeList == old(m.freeList) && m.tabs == old(m.tabs)
    ensures r == 0 ==>
      && m.pt == old(m.pt)[(dst, Vpn(dstva)) := Word(old(m.pt)[(src, Vpn(srcva))].hi, perm.(v := true))]
      && m.tabs.Keys == old(m.tabs).Keys + {(dst, Pdx(Vpn(dstva)))}
    ensures m.SameData(old(m.mem), old(m.role)) && m.NoNewData(old(m.role), m.npage)
    ensures r == 0 && SamePage(old(m.pt), src, srcva, dst, dstva) ==>
      m.TableTaken(old(m.tabs), old(m.freeList), (dst, Pdx(Vpn(dstva))))
  {
    hide WalkOk, RolesOk, AsidsOk, TlbOk, WindowOk;
    if IllegalVa(srcva) || IllegalVa(dstva) {
      return -E_INVAL;
    }
    var pp, pte := m.PageLookup(m.envs[src].pgdir, Vpn(srcva), src);
    if pte == NoPte {
      return -E_INVAL;
    }
    RoleOf(m.ppRef, m.freeList, m.envs, m.tabs, m.pt, m.role, src, Vpn(srcva));
    WalkPte(m.mem, m.envs, m.tabs, m.pt, dst, Vpn(dstva));
    r := m.PageInsert(m.envs[dst].pgdir, m.envs[dst].asid, pp, Vpn(dstva), perm, dst);
  }

  method SysMemUnmap(m: Machine, va: nat, e: nat) returns (r: int)
    requires m.Valid() && e in m.envs
    modifies m`mem, m`ppRef, m`freeList, m`tlb, m`pt, m`role
    ensures m.Valid()
    ensures r == if IllegalVa(va) then -E_INVAL else 0
    ensures m.pt == if IllegalVa(va) then old(m.pt) else old(m.pt) - {(e, Vpn(va))}
    ensures m.SameData(old(m.mem), old(m.role)) && m.NoNewData(old(m.role), m.npage)
  {
    hide WalkOk, RolesOk, AsidsOk, TlbOk, WindowOk;
    if IllegalVa(va) {
      return -E_INVAL;
    }
    m.PageRemove(m.envs[e].pgdir, m.envs[e].asid, Vpn(va), e);
    r := 0;
  }
}
