/** Address spaces of environments and their ASIDs (kern/env.c). */
module EnvVmm {
  import opened Mmu
  import opened Pmap
  import opened Counts

  const E_NO_FREE_ENV: int := 6

  /** asid_alloc: the first unused ASID. */
  method AsidAlloc(m: Machine) returns (r: int, asid: nat)
    requires |m.asidUsed| == NASID
    modifies m`asidUsed
    ensures r == 0 <==> false in old(m.asidUsed)
    ensures r == 0 ==> asid < NASID && !old(m.asidUsed)[asid] && m.asidUsed == old(m.asidUsed)[asid := true]
    ensures r == 0 ==> forall a :: 0 <= a < asid ==> old(m.asidUsed)[a]
    ensures r != 0 ==> r == -E_NO_FREE_ENV && m.asidUsed == old(m.asidUsed)
  {
    for i := 0 to NASID
      invariant forall a :: 0 <= a < i ==> old(m.asidUsed)[a]
      invariant m.asidUsed == old(m.asidUsed)
    {
      if !m.asidUsed[i] {
        m.asidUsed := m.asidUsed[i := true];
        return 0, i;
      }
    }
    r, asid := -E_NO_FREE_ENV, 0;
  }

  method AsidFree(m: Machine, asid: nat)
    requires asid < |m.asidUsed|
    modifies m`asidUsed
    ensures m.asidUsed == old(m.asidUsed)[asid := false]
  {
    m.asidUsed := m.asidUsed[asid := false];
  }

  // ---- directories come and go ----

  /** The directory's entry for the window. */
  predicate NamesItself(f: Frame, d: nat) { f[PDX_UVPT].lo.v && f[PDX_UVPT].hi == d }

  /** A directory page whose user part is empty gives its environment no mapping. */
  lemma NewDirWalk(mem: seq<Frame>, ppRef: seq<nat>, freeList: seq<nat>, envs: map<nat, EnvVm>, tabs: Tables,
                   pt: PageTable, role: seq<Role>, e: nat, d: nat, asid: nat)
    requires WalkOk(mem, envs, tabs, pt) && RolesOk(ppRef, freeList, envs, tabs, pt, role) && |role| == |mem|
    requires e !in envs && d < |mem| && NamesItself(mem[d], d)
    requires forall i :: 0 <= i < NPD ==> !mem[d][i].lo.v
    ensures WalkOk(mem, envs[e := EnvVm(d, asid)], tabs, pt)
  {
    var envs' := envs[e := EnvVm(d, asid)];
    forall x, i: nat | x in envs' && i < NPD
      ensures mem[envs'[x].pgdir][i].lo.v <==> (x, i) in tabs
      ensures mem[envs'[x].pgdir][i].lo.v ==> mem[envs'[x].pgdir][i].hi == tabs[(x, i)]
    {
      if x in envs {
        assert mem[envs[x].pgdir][i].lo.v <==> (x, i) in tabs;
      }
    }
  }

  lemma NewDirRoles(ppRef: seq<nat>, freeList: seq<nat>, envs: map<nat, EnvVm>, tabs: Tables, pt: PageTable,
                    role: seq<Role>, e: nat, d: nat, asid: nat)
    requires RolesOk(ppRef, freeList, envs, tabs, pt, role)
    requires e !in envs && d < |role| && role[d] == Spare
    ensures RolesOk(ppRef, freeList, envs[e := EnvVm(d, asid)], tabs, pt, role[d := Dir(e)])
  {
    assert d !in freeList;
  }

  /** A page set aside is counted once, for a directory that is not yet anyone's. */
  lemma SpareRoles(ppRef: seq<nat>, freeList: seq<nat>, envs: map<nat, EnvVm>, tabs: Tables, pt: PageTable,
                   role: seq<Role>, d: nat)
    requires RolesOk(ppRef, freeList, envs, tabs, pt, role)
    requires d < |role| && role[d] == Limbo
    ensures ppRef[d] == 0
    ensures RolesOk(ppRef[d := ppRef[d] + 1], freeList, envs, tabs, pt, role[d := Spare])
  {
    assert d !in freeList;
    assert CountOk(d, ppRef[d], envs, tabs, pt, role[d]);
  }

  /** Removing an empty table from its directory returns its page and changes no mapping. */
  lemma DropTable(mem: seq<Frame>, ppRef: seq<nat>, freeList: seq<nat>, envs: map<nat, EnvVm>, tabs: Tables,
                  pt: PageTable, role: seq<Role>, e: nat, i: nat)
    requires WalkOk(mem, envs, tabs, pt) && RolesOk(ppRef, freeList, envs, tabs, pt, role) && |role| == |mem|
    requires e in envs && (e, i) in tabs && forall v: nat :: (e, v) in pt ==> Pdx(v) != i
    ensures tabs[(e, i)] < |role| && role[tabs[(e, i)]] == Table(e, i) && ppRef[tabs[(e, i)]] == 1
    ensures envs[e].pgdir < |mem| && role[envs[e].pgdir] == Dir(e)
    ensures WalkOk(mem[envs[e].pgdir := mem[envs[e].pgdir][i := ZERO]], envs, tabs - {(e, i)}, pt)
    ensures RolesOk(ppRef[tabs[(e, i)] := 0], [tabs[(e, i)]] + freeList, envs, tabs - {(e, i)}, pt,
                    role[tabs[(e, i)] := Free])
  {
    DropTableWalk(mem, ppRef, freeList, envs, tabs, pt, role, e, i);
    DropTableRoles(ppRef, freeList, envs, tabs, pt, role, e, i);
  }

  lemma DropTableWalk(mem: seq<Frame>, ppRef: seq<nat>, freeList: seq<nat>, envs: map<nat, EnvVm>, tabs: Tables,
                      pt: PageTable, role: seq<Role>, e: nat, i: nat)
    requires WalkOk(mem, envs, tabs, pt) && RolesOk(ppRef, freeList, envs, tabs, pt, role) && |role| == |mem|
    requires e in envs && (e, i) in tabs && forall v: nat :: (e, v) in pt ==> Pdx(v) != i
    ensures envs[e].pgdir < |mem|
    ensures WalkOk(mem[envs[e].pgdir := mem[envs[e].pgdir][i := ZERO]], envs, tabs - {(e, i)}, pt)
  {
    var d := envs[e].pgdir;
    var mem', tabs' := mem[d := mem[d][i := ZERO]], tabs - {(e, i)};
    forall x, y: nat | x in envs && y < NPD
      ensures mem'[envs[x].pgdir][y].lo.v <==> (x, y) in tabs'
      ensures mem'[envs[x].pgdir][y].lo.v ==> mem'[envs[x].pgdir][y].hi == tabs'[(x, y)]
    {
      assert role[envs[x].pgdir] == Dir(x) && role[d] == Dir(e);
      assert mem[envs[x].pgdir][y].lo.v <==> (x, y) in tabs;
    }
    forall x, v: nat | (x, Pdx(v)) in tabs'
      ensures mem'[tabs'[(x, Pdx(v))]][Ptx(v)].lo.v <==> (x, v) in pt
      ensures mem'[tabs'[(x, Pdx(v))]][Ptx(v)].lo.v ==> mem'[tabs'[(x, Pdx(v))]][Ptx(v)] == pt[(x, v)]
    {
      assert role[tabs[(x, Pdx(v))]] == Table(x, Pdx(v)) && role[d] == Dir(e);
    }
  }

  lemma DropTableRoles(ppRef: seq<nat>, freeList: seq<nat>, envs: map<nat, EnvVm>, tabs: Tables, pt: PageTable,
                       role: seq<Role>, e: nat, i: nat)
    requires RolesOk(ppRef, freeList, envs, tabs, pt, role) && (e, i) in tabs && e in envs
    ensures tabs[(e, i)] < |role| && role[tabs[(e, i)]] == Table(e, i) && ppRef[tabs[(e, i)]] == 1
    ensures envs[e].pgdir < |role| && role[envs[e].pgdir] == Dir(e)
    ensures RolesOk(ppRef[tabs[(e, i)] := 0], [tabs[(e, i)]] + freeList, envs, tabs - {(e, i)}, pt,
                    role[tabs[(e, i)] := Free])
  {
    var t := tabs[(e, i)];
    assert role[t] == Table(e, i);
    assert t !in freeList;
  }

  lemma DropDir(mem: seq<Frame>, ppRef: seq<nat>, freeList: seq<nat>, envs: map<nat, EnvVm>, tabs: Tables,
                pt: PageTable, role: seq<Role>, e: nat)
    requires WalkOk(mem, envs, tabs, pt) && RolesOk(ppRef, freeList, envs, tabs, pt, role) && |role| == |mem|
    requires e in envs && forall i: nat :: (e, i) !in tabs
    ensures envs[e].pgdir < |role| && ppRef[envs[e].pgdir] == 1 && role[envs[e].pgdir] == Dir(e)
    ensures WalkOk(mem, envs - {e}, tabs, pt)
    ensures RolesOk(ppRef[envs[e].pgdir := 0], [envs[e].pgdir] + freeList, envs - {e}, tabs, pt,
                    role[envs[e].pgdir := Free])
  {
    var d := envs[e].pgdir;
    assert role[d] == Dir(e);
    assert d !in freeList;
  }

  /** An ASID whose environment has no mappings left has no TLB entry for a user page. */
  lemma RetireAsid(tlb: map<(nat, nat), Word>, asidUsed: seq<bool>, envs: map<nat, EnvVm>, owner: map<nat, nat>,
                   pt: PageTable, e: nat)
    requires TlbOk(tlb, envs, owner, pt) && AsidsOk(asidUsed, envs, owner)
    requires e in envs && forall v: nat :: (e, v) !in pt
    ensures var a := envs[e].asid;
      && a < NASID == |asidUsed|
      && AsidsOk(asidUsed[a := false], envs - {e}, owner - {a})
      && TlbOk(tlb, envs - {e}, owner - {a}, pt)
      && forall v: nat :: v < NVPN ==> (a, v) !in tlb
  {
  }

  /** ... nor any for the window, once its tables are gone and the directory is flushed. */
  lemma RetireWindow(tlb: map<(nat, nat), Word>, asidUsed: seq<bool>, envs: map<nat, EnvVm>, owner: map<nat, nat>,
                     tabs: Tables, e: nat)
    requires WindowOk(tlb, envs, owner, tabs) && AsidsOk(asidUsed, envs, owner)
    requires e in envs && forall i: nat :: (e, i) !in tabs
    ensures var a := envs[e].asid; var tlb' := tlb - {(a, VPN_UVPT + PDX_UVPT)};
      && WindowOk(tlb', envs - {e}, owner - {a}, tabs)
      && forall v: nat :: v >= NVPN ==> (a, v) !in tlb'
  {
  }

  /** A table gone from its directory, and its window page from the TLB. */
  lemma WindowTable(tlb: map<(nat, nat), Word>, asidUsed: seq<bool>, envs: map<nat, EnvVm>, owner: map<nat, nat>,
                    tabs: Tables, e: nat, i: nat)
    requires WindowOk(tlb, envs, owner, tabs) && AsidsOk(asidUsed, envs, owner) && e in envs && i < NPD
    ensures WindowOk(tlb - {(envs[e].asid, VPN_UVPT + i)}, envs, owner, tabs - {(e, i)})
  {
    var a := envs[e].asid;
    var tlb' := tlb - {(a, VPN_UVPT + i)};
    forall b, v | (b, v) in tlb' && v >= NVPN
      ensures b in owner && WindowPage(envs, tabs - {(e, i)}, owner[b], v, tlb'[(b, v)].hi)
    {
      assert (b, v) in tlb && WindowPage(envs, tabs, owner[b], v, tlb[(b, v)].hi);
      assert owner[b] == e ==> b == a;
    }
  }

  /** A free ASID has no TLB entry at all, so the next environment inherits none, of pages or of the window. */
  lemma FreshAsid(tlb: map<(nat, nat), Word>, asidUsed: seq<bool>, envs: map<nat, EnvVm>, owner: map<nat, nat>,
                  tabs: Tables, pt: PageTable, a: nat)
    requires TlbOk(tlb, envs, owner, pt) && WindowOk(tlb, envs, owner, tabs) && AsidsOk(asidUsed, envs, owner)
    requires a < NASID && !asidUsed[a]
    ensures forall v: nat :: (a, v) !in tlb
  {
  }

  lemma NewWindow(tlb: map<(nat, nat), Word>, envs: map<nat, EnvVm>, owner: map<nat, nat>, tabs: Tables, e: nat,
                  d: nat, a: nat)
    requires WindowOk(tlb, envs, owner, tabs) && e !in envs && a !in owner
    ensures WindowOk(tlb, envs[e := EnvVm(d, a)], owner[a := e], tabs)
  {
  }

  lemma NewAsidBound(asidUsed: seq<bool>, envs: map<nat, EnvVm>, owner: map<nat, nat>)
    requires AsidsOk(asidUsed, envs, owner)
    ensures |asidUsed| == NASID
  {
  }

  lemma NewAsid(tlb: map<(nat, nat), Word>, asidUsed: seq<bool>, envs: map<nat, EnvVm>, owner: map<nat, nat>,
                pt: PageTable, e: nat, d: nat, a: nat)
    requires TlbOk(tlb, envs, owner, pt) && AsidsOk(asidUsed, envs, owner)
    requires e !in envs && a < NASID && !asidUsed[a]
    ensures AsidsOk(asidUsed[a := true], envs[e := EnvVm(d, a)], owner[a := e])
    ensures TlbOk(tlb, envs[e := EnvVm(d, a)], owner[a := e], pt)
    ensures forall v: nat :: v < NVPN ==> (a, v) !in tlb
  {
  }

  /** Every environment has an ASID of its own, so one is free exactly when there are fewer than NASID. */
  lemma FreeAsid(asidUsed: seq<bool>, envs: map<nat, EnvVm>, owner: map<nat, nat>)
    requires AsidsOk(asidUsed, envs, owner)
    ensures false in asidUsed <==> |envs| < NASID
  {
    var asids := map e | e in envs :: envs[e].asid;
    assert asids.Keys == envs.Keys && |asids.Keys| == |asids| && |envs.Keys| == |envs|;
    OneEach(asids, owner);
    RoomBelow(owner.Keys, NASID);
  }

  // Created: 0, with the directory and the ASID. NoAsid: -E_NO_FREE_ENV. NoDirectory: page_alloc failed, which
  // env_alloc does not notice, so that the environment it hands out has no directory; the model stops there.
  datatype Alloced = Created(pgdir: nat, asid: nat) | NoAsid | NoDirectory

  /**
    env_setup_vm: a counted page with an empty user part; the template `base` supplies the entries between
    UTOP and UVPT.
   */
  method EnvSetupVm(m: Machine, base: nat) returns (r: int, p: nat)
    requires m.Valid() && base < m.npage
    modifies m`mem, m`ppRef, m`freeList, m`role
    ensures m.Valid()
    ensures r == if old(m.freeList) == [] then -E_NO_MEM else 0
    ensures r != 0 ==>
      m.mem == old(m.mem) && m.ppRef == old(m.ppRef) && m.freeList == old(m.freeList) && m.role == old(m.role)
    ensures r == 0 ==>
      && p == old(m.freeList)[0] && m.freeList == old(m.freeList)[1..] && p < m.npage
      && old(m.role)[p] == Free && m.role == old(m.role)[p := Spare] && m.ppRef[p] == 1
      && (forall i :: 0 <= i < NPD ==> !m.mem[p][i].lo.v) && NamesItself(m.mem[p], p)
      && (forall i :: NPD <= i < PDX_UVPT && base != p ==> m.mem[p][i] == old(m.mem)[base][i])
      && (forall i :: PDX_UVPT < i < NPTE ==> m.mem[p][i] == ZERO)
      && (forall x :: 0 <= x < m.npage && x != p ==> m.mem[x] == old(m.mem)[x])
  {
    hide WalkOk, RolesOk, AsidsOk, TlbOk, WindowOk;
    r, p := m.PageAlloc();
    if r != 0 {
      return r, 0;
    }
    var f: Frame := m.mem[p][..NPD] + m.mem[base][NPD..PDX_UVPT] + m.mem[p][PDX_UVPT..];
    f := f[PDX_UVPT := Word(p, NOFLAGS.(v := true))];
    DataWriteWalk(m.mem, m.ppRef, m.freeList, m.envs, m.tabs, m.pt, m.role, p, f);
    SpareRoles(m.ppRef, m.freeList, m.envs, m.tabs, m.pt, m.role, p);
    m.ppRef := m.ppRef[p := m.ppRef[p] + 1];
    m.mem := m.mem[p := f];
    m.role := m.role[p := Spare];
  }

  lemma AsidFresh(asidUsed: seq<bool>, envs: map<nat, EnvVm>, owner: map<nat, nat>, a: nat)
    requires AsidsOk(asidUsed, envs, owner) && a < NASID && !asidUsed[a]
    ensures a !in owner
  {
  }

  /** The new environment takes the directory and the ASID. */
  method Enter(m: Machine, ghost asidUsed: seq<bool>, e: nat, p: nat, asid: nat)
    requires |m.mem| == |m.ppRef| == |m.role| == m.npage <= 0x10_0000
    requires WalkOk(m.mem, m.envs, m.tabs, m.pt) && RolesOk(m.ppRef, m.freeList, m.envs, m.tabs, m.pt, m.role)
    requires TlbOk(m.tlb, m.envs, m.owner, m.pt) && AsidsOk(asidUsed, m.envs, m.owner)
    requires WindowOk(m.tlb, m.envs, m.owner, m.tabs)
    requires e !in m.envs && asid < NASID == |asidUsed| && !asidUsed[asid] && m.asidUsed == asidUsed[asid := true]
    requires p < m.npage && m.role[p] == Spare && NamesItself(m.mem[p], p)
    requires forall i :: 0 <= i < NPD ==> !m.mem[p][i].lo.v
    modifies m`envs, m`role, m`owner
    ensures m.Valid() && m.envs == old(m.envs)[e := EnvVm(p, asid)] && m.role == old(m.role)[p := Dir(e)]
    ensures forall v: nat :: (e, v) !in m.pt
    ensures forall i: nat :: (e, i) !in m.tabs
    ensures forall v: nat :: (asid, v) !in m.tlb
  {
    hide WalkOk, RolesOk, AsidsOk, TlbOk, WindowOk;
    NewDirWalk(m.mem, m.ppRef, m.freeList, m.envs, m.tabs, m.pt, m.role, e, p, asid);
    NewDirRoles(m.ppRef, m.freeList, m.envs, m.tabs, m.pt, m.role, e, p, asid);
    NewAsid(m.tlb, asidUsed, m.envs, m.owner, m.pt, e, p, asid);
    FreshAsid(m.tlb, asidUsed, m.envs, m.owner, m.tabs, m.pt, asid);
    AsidFresh(asidUsed, m.envs, m.owner, asid);
    NewWindow(m.tlb, m.envs, m.owner, m.tabs, e, p, asid);
    NoMappingsYet(m.mem, m.envs, m.tabs, m.pt, e);
    m.envs := m.envs[e := EnvVm(p, asid)];
    m.role := m.role[p := Dir(e)];
    m.owner := m.owner[asid := e];
  }

  /**
    env_alloc for a free `e`: an empty address space under a new ASID that the TLB has nothing under; above UTOP
    the directory is the template's, and its own window. Without an ASID the directory that has
    been set up stays behind, counted and in no use.
   */
  method EnvAlloc(m: Machine, e: nat, base: nat) returns (r: Alloced)
    requires m.Valid() && e !in m.envs && base < m.npage
    modifies m`mem, m`ppRef, m`freeList, m`asidUsed, m`envs, m`role, m`owner
    ensures m.Valid()
    ensures r == NoAsid <==> false !in old(m.asidUsed)
    ensures r == NoDirectory <==> false in old(m.asidUsed) && old(m.freeList) == []
    ensures old(m.freeList) == [] ==>
      m.mem == old(m.mem) && m.ppRef == old(m.ppRef) && m.freeList == old(m.freeList) && m.role == old(m.role)
    ensures !r.Created? ==> m.envs == old(m.envs) && m.asidUsed == old(m.asidUsed)
    ensures old(m.freeList) != [] ==> var p := old(m.freeList)[0];
      && m.freeList == old(m.freeList)[1..] && p < |m.role| == |old(m.role)| && old(m.role)[p] == Free
      && m.role == old(m.role)[p := if r.Created? then Dir(e) else Spare]
      && (r.Created? ==> r.pgdir == p)
    ensures r.Created? ==> var asid := r.asid;
      && asid < NASID && !old(m.asidUsed)[asid] && m.asidUsed == old(m.asidUsed)[asid := true]
      && m.envs == old(m.envs)[e := EnvVm(r.pgdir, asid)]
      && (forall v: nat :: (e, v) !in m.pt) && (forall i: nat :: (e, i) !in m.tabs)
      && (forall v: nat :: (asid, v) !in m.tlb)
      && NamesItself(m.mem[r.pgdir], r.pgdir) && (forall i :: PDX_UVPT < i < NPTE ==> m.mem[r.pgdir][i] == ZERO)
      && (base != r.pgdir ==> forall i :: NPD <= i < PDX_UVPT ==> m.mem[r.pgdir][i] == old(m.mem)[base][i])
    ensures m.SameData(old(m.mem), old(m.role))
    ensures r.Created? || old(m.freeList) == [] ==> m.NoNewData(old(m.role), m.npage)
  {
    hide WalkOk, RolesOk, AsidsOk, TlbOk, WindowOk;
    var s, p := EnvSetupVm(m, base);
    NewAsidBound(m.asidUsed, m.envs, m.owner);
    if s != 0 && false in m.asidUsed {
      return NoDirectory;
    }
    var a, asid := AsidAlloc(m);
    if a != 0 {
      return NoAsid;
    }
    Enter(m, old(m.asidUsed), e, p, asid);
    r := Created(p, asid);
  }

  lemma NoMappingsYet(mem: seq<Frame>, envs: map<nat, EnvVm>, tabs: Tables, pt: PageTable, e: nat)
    requires WalkOk(mem, envs, tabs, pt) && e !in envs
    ensures (forall v: nat :: (e, v) !in pt) && forall i: nat :: (e, i) !in tabs
  {
  }

  /** The tables, and the mappings, of all environments but those of `e` below directory entry `i`. */
  ghost function TablesFrom(tabs: Tables, e: nat, i: nat): Tables {
    map k | k in tabs && (k.0 != e || k.1 >= i) :: tabs[k]
  }

  ghost function PtFrom(pt: PageTable, e: nat, i: nat): PageTable {
    map k | k in pt && (k.0 != e || Pdx(k.1) >= i) :: pt[k]
  }

  /** The mappings `pt0` without those of `e` in table `i` at entries below `j`. */
  ghost function WithoutTable(pt0: PageTable, e: nat, i: nat, j: nat): PageTable {
    map k | k in pt0 && !(k.0 == e && Pdx(k.1) == i && Ptx(k.1) < j) :: pt0[k]
  }

  lemma WithoutTableStep(pt0: PageTable, e: nat, i: nat, j: nat)
    requires j < NPTE
    ensures WithoutTable(pt0, e, i, 0) == pt0
    ensures WithoutTable(pt0, e, i, j + 1) == WithoutTable(pt0, e, i, j) - {(e, i * NPTE + j)}
    ensures (e, i * NPTE + j) !in WithoutTable(pt0, e, i, j) ==>
      WithoutTable(pt0, e, i, j + 1) == WithoutTable(pt0, e, i, j)
    ensures Pdx(i * NPTE + j) == i && Ptx(i * NPTE + j) == j
  {
    forall k: (nat, nat) ensures Pdx(k.1) == i && Ptx(k.1) == j <==> k.1 == i * NPTE + j {
    }
  }

  /** env_free's inner loop: every valid entry of one table is removed. */
  method ClearTable(m: Machine, e: nat, pgdir: nat, asid: nat, pdeno: nat)
    requires m.Valid() && e in m.envs && m.envs[e] == EnvVm(pgdir, asid) && pdeno < NPD && (e, pdeno) in m.tabs
    modifies m`mem, m`ppRef, m`freeList, m`tlb, m`pt, m`role
    ensures m.Valid()
    ensures m.pt == WithoutTable(old(m.pt), e, pdeno, NPTE)
    ensures m.SameData(old(m.mem), old(m.role)) && m.NoNewData(old(m.role), m.npage)
  {
    hide WalkOk, RolesOk, AsidsOk, TlbOk, WindowOk, WithoutTable, DataKept, FewRoles;
    WalkPde(m.mem, m.envs, m.tabs, m.pt, e, pdeno);
    var pt := m.mem[pgdir][pdeno].hi;
    WithoutTableStep(m.pt, e, pdeno, 0);
    KeptSelf(m.mem, m.role);
    for pteno := 0 to NPTE
      invariant m.Valid()
      invariant m.pt == WithoutTable(old(m.pt), e, pdeno, pteno)
      invariant m.SameData(old(m.mem), old(m.role)) && m.NoNewData(old(m.role), m.npage)
    {
      WithoutTableStep(old(m.pt), e, pdeno, pteno);
      WalkPte(m.mem, m.envs, m.tabs, m.pt, e, pdeno * NPTE + pteno);
      if m.mem[pt][pteno].lo.v {
        ghost var mem, role := m.mem, m.role;
        m.PageRemove(pgdir, asid, pdeno * NPTE + pteno, e);
        KeptThen(old(m.mem), old(m.role), mem, role, m.mem, m.role, m.npage);
      }
    }
  }

  /**
    One turn of env_free's outer loop at a directory entry in use: its entries, then the table itself. The table's
    page, and every page that only these entries named, are on the free list afterwards.
   */
  method FreeTable(m: Machine, e: nat, pgdir: nat, asid: nat, pdeno: nat)
    requires m.Valid() && e in m.envs && m.envs[e] == EnvVm(pgdir, asid) && pdeno < NPD && (e, pdeno) in m.tabs
    modifies m`mem, m`ppRef, m`freeList, m`tlb, m`tabs, m`pt, m`role
    ensures m.Valid()
    ensures m.pt == WithoutTable(old(m.pt), e, pdeno, NPTE) && m.tabs == old(m.tabs) - {(e, pdeno)}
    ensures (asid, VPN_UVPT + pdeno) !in m.tlb
    ensures m.SameData(old(m.mem), old(m.role)) && m.NoNewData(old(m.role), m.npage)
    ensures GivenBack(old(m.ppRef), old(m.freeList), m.ppRef, m.freeList,
                      p => HeldUnder(old(m.tabs), old(m.pt), e, pdeno, p))
  {
    hide WalkOk, RolesOk, AsidsOk, TlbOk, WindowOk, GivenBack;
    WalkPde(m.mem, m.envs, m.tabs, m.pt, e, pdeno);
    var pt := m.mem[pgdir][pdeno].hi;
    ClearTable(m, e, pgdir, asid, pdeno);
    DropTable(m.mem, m.ppRef, m.freeList, m.envs, m.tabs, m.pt, m.role, e, pdeno);
    FlushKernel(m.tlb, m.envs, m.owner, m.pt, asid, VPN_UVPT + pdeno);
    WindowTable(m.tlb, m.asidUsed, m.envs, m.owner, m.tabs, e, pdeno);
    m.mem := m.mem[pgdir := m.mem[pgdir][pdeno := ZERO]];
    m.PageDecref(pt);
    m.tabs := m.tabs - {(e, pdeno)};
    m.role := m.role[pt := Free];
    m.TlbInvalidate(asid, VPN_UVPT + pdeno);
    GaveTable(m.ppRef, m.freeList, m.envs, m.tabs, m.pt, m.role, e, pdeno,
              old(m.ppRef), old(m.freeList), old(m.tabs), old(m.pt), old(m.role));
  }

  lemma GaveTable(ppRef: seq<nat>, freeList: seq<nat>, envs: map<nat, EnvVm>, tabs: Tables, pt: PageTable,
                  role: seq<Role>, e: nat, i: nat, ppRef0: seq<nat>, freeList0: seq<nat>, tabs0: Tables,
                  pt0: PageTable, role0: seq<Role>)
    requires RolesOk(ppRef0, freeList0, envs, tabs0, pt0, role0) && RolesOk(ppRef, freeList, envs, tabs, pt, role)
    requires FewRoles(role0, role, |role|) && tabs == tabs0 - {(e, i)} && pt == WithoutTable(pt0, e, i, NPTE)
    ensures GivenBack(ppRef0, freeList0, ppRef, freeList, p => HeldUnder(tabs0, pt0, e, i, p))
  {
    hide RolesOk, References, HeldUnder, GivenBack, FewRoles;
    assert pt == map k | k in pt0 && !(k.0 == e && Pdx(k.1) == i) :: pt0[k];
    forall p: nat
      ensures References(envs, tabs, pt, p) == References(envs, tabs0, pt0, p) - HeldUnder(tabs0, pt0, e, i, p)
    {
      ReleasedUnder(envs, tabs0, pt0, pt, e, i, p);
    }
    GivesBack(ppRef0, freeList0, envs, tabs0, pt0, role0, ppRef, freeList, envs, tabs, pt, role,
              p => HeldUnder(tabs0, pt0, e, i, p));
  }

  lemma GaveAll(ppRef: seq<nat>, freeList: seq<nat>, envs: map<nat, EnvVm>, tabs: Tables, pt: PageTable,
                role: seq<Role>, e: nat, ppRef0: seq<nat>, freeList0: seq<nat>, envs0: map<nat, EnvVm>,
                tabs0: Tables, pt0: PageTable, role0: seq<Role>)
    requires RolesOk(ppRef0, freeList0, envs0, tabs0, pt0, role0) && RolesOk(ppRef, freeList, envs, tabs, pt, role)
    requires FewRoles(role0, role, |role|)
    requires envs == envs0 - {e} && tabs == OthersTabs(tabs0, e) && pt == OthersPt(pt0, e)
    ensures GivenBack(ppRef0, freeList0, ppRef, freeList, p => HeldBy(envs0, tabs0, pt0, e, p))
  {
    hide RolesOk, References, HeldBy, GivenBack, FewRoles;
    forall p: nat
      ensures References(envs, tabs, pt, p) == References(envs0, tabs0, pt0, p) - HeldBy(envs0, tabs0, pt0, e, p)
    {
      ReleasedExactly(envs0, tabs0, pt0, e, p);
    }
    GivesBack(ppRef0, freeList0, envs0, tabs0, pt0, role0, ppRef, freeList, envs, tabs, pt, role,
              p => HeldBy(envs0, tabs0, pt0, e, p));
  }

  lemma FlushKernel(tlb: map<(nat, nat), Word>, envs: map<nat, EnvVm>, owner: map<nat, nat>, pt: PageTable,
                    asid: nat, vpn: nat)
    requires TlbOk(tlb, envs, owner, pt)
    ensures TlbOk(tlb - {(asid, vpn)}, envs, owner, pt)
  {
  }

  /** The end of env_free: the directory's page and the ASID. */
  method DropDirectory(m: Machine, e: nat, pgdir: nat, asid: nat)
    requires m.Valid() && e in m.envs && m.envs[e] == EnvVm(pgdir, asid)
    requires (forall v: nat :: (e, v) !in m.pt) && forall i: nat :: (e, i) !in m.tabs
    modifies m`ppRef, m`freeList, m`tlb, m`asidUsed, m`envs, m`role, m`owner
    ensures m.Valid()
    ensures m.envs == old(m.envs) - {e} && m.owner == old(m.owner) - {asid}
    ensures asid < |old(m.asidUsed)| && m.asidUsed == old(m.asidUsed)[asid := false]
    ensures forall v: nat :: (asid, v) !in m.tlb
    ensures m.SameData(old(m.mem), old(m.role)) && m.NoNewData(old(m.role), m.npage)
  {
    hide WalkOk, RolesOk, AsidsOk, TlbOk, WindowOk;
    RetireWindow(m.tlb, m.asidUsed, m.envs, m.owner, m.tabs, e);
    DropDir(m.mem, m.ppRef, m.freeList, m.envs, m.tabs, m.pt, m.role, e);
    RetireAsid(m.tlb, m.asidUsed, m.envs, m.owner, m.pt, e);
    FlushKernel(m.tlb, m.envs - {e}, m.owner - {asid}, m.pt, asid, VPN_UVPT + PDX_UVPT);
    m.PageDecref(pgdir);
    m.role := m.role[pgdir := Free];
    AsidFree(m, asid);
    m.TlbInvalidate(asid, VPN_UVPT + PDX_UVPT);
    m.envs := m.envs - {e};
    m.owner := m.owner - {asid};
  }

  /**
    env_free, as far as memory goes: every user mapping, table and the directory of `e` is released,
    and its ASID, under which the TLB then has nothing, of pages or of the window; the mappings of every
    other environment are as they were. Each page is counted less by what `e` held of it, and the free list
    gains exactly the pages that nobody else held.
   */
  method EnvFree(m: Machine, e: nat)
    requires m.Valid() && e in m.envs
    modifies m`mem, m`ppRef, m`freeList, m`tlb, m`asidUsed, m`envs, m`tabs, m`pt, m`role, m`owner
    ensures m.Valid()
    ensures m.envs == old(m.envs) - {e} && m.owner == old(m.owner) - {old(m.envs)[e].asid}
    ensures m.pt == OthersPt(old(m.pt), e)
    ensures m.tabs == OthersTabs(old(m.tabs), e)
    ensures m.asidUsed == old(m.asidUsed)[old(m.envs)[e].asid := false]
    ensures forall v: nat :: (old(m.envs)[e].asid, v) !in m.tlb
    ensures m.SameData(old(m.mem), old(m.role)) && m.NoNewData(old(m.role), m.npage)
    ensures GivenBack(old(m.ppRef), old(m.freeList), m.ppRef, m.freeList,
                      p => HeldBy(old(m.envs), old(m.tabs), old(m.pt), e, p))
  {
    hide WalkOk, RolesOk, AsidsOk, TlbOk, WindowOk, GivenBack;
    var pgdir, asid := m.envs[e].pgdir, m.envs[e].asid;
    FreeNone(m.tabs, m.pt, e);
    for pdeno := 0 to NPD
      invariant m.Valid() && m.envs == old(m.envs) && m.asidUsed == old(m.asidUsed) && m.owner == old(m.owner)
      invariant m.tabs == TablesFrom(old(m.tabs), e, pdeno) && m.pt == PtFrom(old(m.pt), e, pdeno)
      invariant m.SameData(old(m.mem), old(m.role)) && m.NoNewData(old(m.role), m.npage)
    {
      WalkPde(m.mem, m.envs, m.tabs, m.pt, e, pdeno);
      FreeOne(old(m.tabs), old(m.pt), e, pdeno);
      NoTableNoEntry(m.mem, m.envs, m.tabs, m.pt, e, pdeno);
      if m.mem[pgdir][pdeno].lo.v {
        FreeTable(m, e, pgdir, asid, pdeno);
      }
    }
    FreeAll(m.mem, m.envs, m.tabs, m.pt, old(m.tabs), old(m.pt), e);
    DropDirectory(m, e, pgdir, asid);
    GaveAll(m.ppRef, m.freeList, m.envs, m.tabs, m.pt, m.role, e,
            old(m.ppRef), old(m.freeList), old(m.envs), old(m.tabs), old(m.pt), old(m.role));
  }

  lemma FreeNone(tabs: Tables, pt: PageTable, e: nat)
    ensures TablesFrom(tabs, e, 0) == tabs && PtFrom(pt, e, 0) == pt
  {
  }

  lemma FreeOne(tabs: Tables, pt: PageTable, e: nat, i: nat)
    ensures TablesFrom(tabs, e, i + 1) == TablesFrom(tabs, e, i) - {(e, i)}
    ensures PtFrom(pt, e, i + 1) == WithoutTable(PtFrom(pt, e, i), e, i, NPTE)
  {
  }

  lemma NoTableNoEntry(mem: seq<Frame>, envs: map<nat, EnvVm>, tabs: Tables, pt: PageTable, e: nat, i: nat)
    requires WalkOk(mem, envs, tabs, pt)
    ensures (e, i) !in tabs ==> tabs - {(e, i)} == tabs && WithoutTable(pt, e, i, NPTE) == pt
  {
    if (e, i) !in tabs {
      forall k | k in pt && k.0 == e ensures Pdx(k.1) != i {
        assert (k.0, k.1) in pt;
      }
    }
  }

  lemma FreeAll(mem: seq<Frame>, envs: map<nat, EnvVm>, tabs: Tables, pt: PageTable, tabs0: Tables, pt0: PageTable,
                e: nat)
    requires WalkOk(mem, envs, tabs, pt)
    requires tabs == TablesFrom(tabs0, e, NPD) && pt == PtFrom(pt0, e, NPD)
    ensures tabs == OthersTabs(tabs0, e)
    ensures pt == OthersPt(pt0, e)
    ensures (forall v: nat :: (e, v) !in pt) && forall i: nat :: (e, i) !in tabs
  {
    forall k | k in pt ensures k.0 != e {
      assert (k.0, k.1) in pt;
    }
    forall k | k in tabs ensures k.0 != e {
      assert (k.0, k.1) in tabs;
    }
    assert forall k :: k in pt0 && k.0 != e ==> k in pt;
  }
}
