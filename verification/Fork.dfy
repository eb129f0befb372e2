/** User-level fork and the copy-on-write handler, by system calls (user/lib/fork.c). */
module ForkLib {
  import opened Mmu
  import opened Pmap
  import opened SyscallMem
  import opened EnvVmm
  import opened Tlb
  import Cow

  /**
    duppage: maps page `vpn` of `e` into the child, then again in `e`, with the flags of Cow.CowFlags. `ok` is
    whether both calls succeeded, which the library does not look at.
   */
  method Duppage(m: Machine, e: nat, child: nat, vpn: nat, perm: Flags) returns (ok: bool)
    requires m.Valid() && e in m.envs && child in m.envs && e != child && vpn < NVPN
    requires (e, vpn) in m.pt && m.pt[(e, vpn)].lo == perm && (child, vpn) !in m.pt
    modifies m`mem, m`ppRef, m`freeList, m`tlb, m`pt, m`role, m`tabs
    ensures m.Valid()
    ensures m.SameData(old(m.mem), old(m.role)) && m.NoNewData(old(m.role), m.npage)
    ensures ok <==> vpn >= UTEMP_VPN && ((child, Pdx(vpn)) in old(m.tabs) || old(m.freeList) != [])
    ensures var w := Cow.CowPte(old(m.pt)[(e, vpn)]);
      && (vpn < UTEMP_VPN ==> m.pt == old(m.pt))
      && (vpn >= UTEMP_VPN && ok ==> m.pt == old(m.pt)[(child, vpn) := w][(e, vpn) := w])
      && (vpn >= UTEMP_VPN && !ok ==> m.pt == old(m.pt)[(e, vpn) := w])
    ensures vpn >= UTEMP_VPN ==> m.TableTaken(old(m.tabs), old(m.freeList), (child, Pdx(vpn)))
  {
    hide WalkOk, RolesOk, AsidsOk, TlbOk, WindowOk, DataKept, FewRoles;
    WalkPte(m.mem, m.envs, m.tabs, m.pt, e, vpn);
    var addr := vpn * BY2PG;
    assert Vpn(addr) == vpn;
    var perm' := perm;
    if perm.d && !perm.lib && !perm.cow {
      perm' := perm'.(d := false);
      perm' := perm'.(cow := true);
    }
    var r := SysMemMap(m, e, addr, child, addr, perm');
    ghost var mem, role := m.mem, m.role;
    ok := r == 0;
    r := SysMemMap(m, e, addr, e, addr, perm');
    ok := ok && r == 0;
    KeptThen(old(m.mem), old(m.role), mem, role, m.mem, m.role, m.npage);
  }

  /** The directory entries that the pages of `e` below `bound` lie under. */
  ghost function Windows(pt: PageTable, e: nat, bound: nat): set<nat> {
    set k | k in pt && k.0 == e && k.1 < bound :: Pdx(k.1)
  }

  lemma WindowsStep(pt: PageTable, e: nat, i: nat)
    ensures Windows(pt, e, 0) == {}
    ensures Windows(pt, e, i + 1) == Windows(pt, e, i) + (if (e, i) in pt then {Pdx(i)} else {})
  {
    if (e, i) in pt {
      assert (e, i).0 == e && (e, i).1 < i + 1;
    }
    forall k | k in pt && k.0 == e && k.1 == i ensures k == (e, i) {}
  }

  ghost function TablesOf(tabs: Tables, e: nat): set<nat> {
    set k | k in tabs && k.0 == e :: k.1
  }

  lemma TablesAdd(tabs: Tables, e: nat, i: nat, t: nat)
    ensures TablesOf(tabs[(e, i) := t], e) == TablesOf(tabs, e) + {i}
    ensures i in TablesOf(tabs, e) <==> (e, i) in tabs
  {
    var tabs' := tabs[(e, i) := t];
    assert (e, i) in tabs' && (e, i).0 == e && (e, i).1 == i;
    forall j | j in TablesOf(tabs, e) ensures j in TablesOf(tabs', e) {
      var k :| k in tabs && k.0 == e && k.1 == j;
      assert k in tabs';
    }
    forall j | j in TablesOf(tabs', e) ensures j in TablesOf(tabs, e) + {i} {
      var k :| k in tabs' && k.0 == e && k.1 == j;
      assert k == (e, j);
    }
    if i in TablesOf(tabs, e) {
      var k :| k in tabs && k.0 == e && k.1 == i;
      assert k == (e, i);
    }
  }

  lemma SweepStep(pt: PageTable, e: nat, child: nat, i: nat)
    requires e != child && forall v: int :: (child, v) !in pt
    ensures (e, i) !in pt ==> Cow.SweepPt(pt, e, child, i + 1) == Cow.SweepPt(pt, e, child, i)
    ensures (e, i) in pt ==> var w := Cow.CowPte(pt[(e, i)]);
      Cow.SweepPt(pt, e, child, i + 1) == Cow.SweepPt(pt, e, child, i)[(child, i) := w][(e, i) := w]
  {
    hide Cow.SweepPt;
    var w := if (e, i) in pt then Cow.CowPte(pt[(e, i)]) else ZERO;
    var p0, p1 := Cow.SweepPt(pt, e, child, i), Cow.SweepPt(pt, e, child, i + 1);
    forall k: Cow.Key
      ensures k in p1 <==> k in p0 || ((e, i) in pt && (k == (child, i) || k == (e, i)))
      ensures k in p1 ==> p1[k] == if (e, i) in pt && (k == (child, i) || k == (e, i)) then w else p0[k]
    {
      Cow.SweepAt(pt, e, child, i, k);
      Cow.SweepAt(pt, e, child, i + 1, k);
    }
  }

  /** The tables of the child and those of all others. */
  function ChildTables(child: nat, windows: set<nat>): set<(nat, nat)> { set i | i in windows :: (child, i) }

  ghost predicate OthersTables(tabs0: Tables, tabs: Tables, child: nat) {
    forall k: (nat, nat) {:trigger k in tabs} {:trigger k in tabs0} :: k.0 != child ==> (k in tabs <==> k in tabs0)
  }

  lemma TablesAre(tabs0: Tables, tabs: Tables, child: nat)
    requires OthersTables(tabs0, tabs, child) && forall i: nat :: (child, i) !in tabs0
    ensures tabs.Keys == tabs0.Keys + ChildTables(child, TablesOf(tabs, child))
  {
    forall k: (nat, nat) ensures k in tabs <==> k in tabs0.Keys + ChildTables(child, TablesOf(tabs, child)) {
      assert k == (k.0, k.1);
    }
  }

  /** Before the first step nothing has moved. */
  lemma SweepNone(pt: PageTable, e: nat, child: nat)
    requires e != child && forall v: int :: (child, v) !in pt
    requires forall k :: k in pt ==> UTEMP_VPN <= k.1
    ensures Cow.SweepPt(pt, e, child, 0) == pt
  {
    hide Cow.SweepPt;
    var p0 := Cow.SweepPt(pt, e, child, 0);
    forall k: Cow.Key
      ensures k in p0 <==> k in pt
      ensures k in pt ==> p0[k] == pt[k]
    {
      Cow.SweepAt(pt, e, child, 0, k);
    }
  }

  /**
    How far the sweep has come at page `n` with `free0` free pages at its start: if the tables the child needs
    so far were to be had, they are made and every page is in both spaces; if not, a page is missing in the child.
   */
  ghost predicate Swept(pt0: PageTable, pt: PageTable, tabs: Tables, free: nat, free0: nat, e: nat, child: nat, n: nat)
  {
    && TablesOf(tabs, child) <= Windows(pt0, e, n) && free + |TablesOf(tabs, child)| == free0
    && (forall v: nat :: n <= v ==> (child, v) !in pt && ((e, v) in pt <==> (e, v) in pt0))
    && (if |Windows(pt0, e, n)| <= free0
        then TablesOf(tabs, child) == Windows(pt0, e, n) && pt == Cow.SweepPt(pt0, e, child, n)
        else exists v: nat :: v < n && (e, v) in pt0 && (child, v) !in pt)
  }

  lemma SweptStart(pt: PageTable, tabs: Tables, free: nat, e: nat, child: nat)
    requires e != child && forall v: int :: (child, v) !in pt
    requires forall k :: k in pt ==> UTEMP_VPN <= k.1
    requires forall i: nat :: (child, i) !in tabs
    ensures Swept(pt, pt, tabs, free, free, e, child, 0)
  {
    hide Cow.SweepPt;
    SweepNone(pt, e, child);
    WindowsStep(pt, e, 0);
    forall k | k in tabs ensures k.0 != child { assert k == (k.0, k.1); }
    assert TablesOf(tabs, child) == {};
  }

  /** A page that is not mapped is passed over. */
  lemma SweptPast(pt0: PageTable, pt: PageTable, tabs: Tables, free: nat, free0: nat, e: nat, child: nat, n: nat)
    requires e != child && (forall v: int :: (child, v) !in pt0) && (e, n) !in pt0
    requires Swept(pt0, pt, tabs, free, free0, e, child, n)
    ensures Swept(pt0, pt, tabs, free, free0, e, child, n + 1) && Windows(pt0, e, n + 1) == Windows(pt0, e, n)
  {
    hide Cow.SweepPt, Windows, TablesOf;
    WindowsStep(pt0, e, n);
    SweepStep(pt0, e, child, n);
    assert Windows(pt0, e, n + 1) == Windows(pt0, e, n);
  }

  /** A mapped page is duplicated; the table it needs takes a page when it is the first under its directory entry. */
  lemma SweptOver(pt0: PageTable, pt: PageTable, tabs: Tables, freeList: seq<nat>, free0: nat, e: nat, child: nat,
                  n: nat,
                  pt': PageTable, tabs': Tables, freeList': seq<nat>)
    requires e != child && (forall v: int :: (child, v) !in pt0) && (e, n) in pt0 && (e, n) in pt
    requires Swept(pt0, pt, tabs, |freeList|, free0, e, child, n)
    requires var k := (child, Pdx(n)); var w := Cow.CowPte(pt[(e, n)]);
      if k in tabs || freeList != [] then
        && pt' == pt[(child, n) := w][(e, n) := w]
        && (if k in tabs then tabs' == tabs && freeList' == freeList
            else tabs' == tabs[k := freeList[0]] && freeList' == freeList[1..])
      else pt' == pt[(e, n) := w] && tabs' == tabs && freeList' == freeList
    ensures Swept(pt0, pt', tabs', |freeList'|, free0, e, child, n + 1)
    ensures |Windows(pt0, e, n + 1)| <= free0 <==>
      |Windows(pt0, e, n)| <= free0 && ((child, Pdx(n)) in tabs || freeList != [])
  {
    hide Cow.SweepPt, Windows, TablesOf, Cow.CowPte;
    var i := Pdx(n);
    WindowsStep(pt0, e, n);
    TablesAdd(tabs, child, i, if freeList != [] then freeList[0] else 0);
    SweepStep(pt0, e, child, n);
    var w, w' := Windows(pt0, e, n), Windows(pt0, e, n + 1);
    assert i in w ==> w' == w;
    assert i !in w ==> |w'| == |w| + 1;
    if |w'| <= free0 {
      Cow.SweepAt(pt0, e, child, n, (e, n));
      assert pt[(e, n)] == pt0[(e, n)];
    } else if |w| <= free0 {
      assert i !in TablesOf(tabs, child) && freeList == [];
      assert (e, n) in pt0 && (child, n) !in pt';
    } else {
      var v: nat :| v < n && (e, v) in pt0 && (child, v) !in pt;
      assert (child, v) !in pt';
    }
  }

  /** The sweep of fork: the vpd and vpt windows say which pages are mapped. */
  method Sweep(m: Machine, e: nat, child: nat) returns (ok: bool)
    requires m.Valid() && e in m.envs && child in m.envs && e != child
    requires (forall v: int :: (child, v) !in m.pt) && forall k :: k in m.pt ==> UTEMP_VPN <= k.1
    requires forall i: nat :: (child, i) !in m.tabs
    modifies m`mem, m`ppRef, m`freeList, m`tlb, m`tabs, m`pt, m`role
    ensures m.Valid()
    ensures m.SameData(old(m.mem), old(m.role)) && m.NoNewData(old(m.role), m.npage)
    ensures ok <==> |Windows(old(m.pt), e, USTACK_VPN)| <= |old(m.freeList)|
    ensures ok <==> m.pt == Cow.SweepPt(old(m.pt), e, child, USTACK_VPN)
    ensures OthersTables(old(m.tabs), m.tabs, child)
    ensures ok ==> TablesOf(m.tabs, child) == Windows(old(m.pt), e, USTACK_VPN)
  {
    hide WalkOk, RolesOk, AsidsOk, TlbOk, WindowOk, Cow.SweepPt, DataKept, FewRoles, Swept, Windows;
    var i := 0;
    ok := true;
    ghost var pt0, free0 := m.pt, |m.freeList|;
    SweptStart(m.pt, m.tabs, free0, e, child);
    KeptSelf(m.mem, m.role);
    WindowsStep(pt0, e, 0);
    while i < USTACKTOP
      invariant i % BY2PG == 0 && i <= USTACKTOP
      invariant m.Valid()
      invariant m.SameData(old(m.mem), old(m.role)) && m.NoNewData(old(m.role), m.npage)
      invariant Swept(pt0, m.pt, m.tabs, |m.freeList|, free0, e, child, Vpn(i))
      invariant ok <==> |Windows(pt0, e, Vpn(i))| <= free0
      invariant OthersTables(old(m.tabs), m.tabs, child)
    {
      ghost var mem, role := m.mem, m.role;
      var done := SweepPage(m, e, child, i, pt0, free0);
      ok := ok && done;
      KeptThen(old(m.mem), old(m.role), mem, role, m.mem, m.role, m.npage);
      i := i + BY2PG;
    }
    SweptEnd(pt0, m.pt, m.tabs, |m.freeList|, free0, e, child);
  }

  lemma SweptEnd(pt0: PageTable, pt: PageTable, tabs: Tables, free: nat, free0: nat, e: nat, child: nat)
    requires e != child && forall v: int :: (child, v) !in pt0
    requires Swept(pt0, pt, tabs, free, free0, e, child, USTACK_VPN)
    ensures pt == Cow.SweepPt(pt0, e, child, USTACK_VPN) <==> |Windows(pt0, e, USTACK_VPN)| <= free0
    ensures |Windows(pt0, e, USTACK_VPN)| <= free0 ==> TablesOf(tabs, child) == Windows(pt0, e, USTACK_VPN)
  {
    hide Cow.SweepPt, Windows, TablesOf;
    if |Windows(pt0, e, USTACK_VPN)| > free0 {
      var v: nat :| v < USTACK_VPN && (e, v) in pt0 && (child, v) !in pt;
      Cow.SweepAt(pt0, e, child, USTACK_VPN, (child, v));
    }
  }

  /** One turn of the loop. */
  method SweepPage(m: Machine, e: nat, child: nat, i: nat, ghost pt0: PageTable, ghost free0: nat) returns (ok: bool)
    requires m.Valid() && e in m.envs && child in m.envs && e != child && i % BY2PG == 0 && i < USTACKTOP
    requires (forall v: int :: (child, v) !in pt0) && forall k :: k in pt0 ==> UTEMP_VPN <= k.1
    requires Swept(pt0, m.pt, m.tabs, |m.freeList|, free0, e, child, Vpn(i))
    modifies m`mem, m`ppRef, m`freeList, m`tlb, m`tabs, m`pt, m`role
    ensures m.Valid()
    ensures m.SameData(old(m.mem), old(m.role)) && m.NoNewData(old(m.role), m.npage)
    ensures Swept(pt0, m.pt, m.tabs, |m.freeList|, free0, e, child, Vpn(i) + 1)
    ensures |Windows(pt0, e, Vpn(i) + 1)| <= free0 <==> |Windows(pt0, e, Vpn(i))| <= free0 && ok
    ensures OthersTables(old(m.tabs), m.tabs, child)
  {
    hide WalkOk, RolesOk, AsidsOk, TlbOk, WindowOk, Cow.SweepPt, DataKept, FewRoles, Swept, Windows;
    var vpn := i / BY2PG;
    KeptSelf(m.mem, m.role);
    SweptAhead(pt0, m.pt, m.tabs, |m.freeList|, free0, e, child, vpn);
    WalkPde(m.mem, m.envs, m.tabs, m.pt, e, vpn / NPTE);
    WalkPte(m.mem, m.envs, m.tabs, m.pt, e, vpn);
    assert (e, vpn) in pt0 ==> UTEMP_VPN <= (e, vpn).1;
    ghost var pt, tabs, freeList := m.pt, m.tabs, m.freeList;
    var pde := ReadVpd(m, vpn / NPTE, {}, e, m.envs[e].pgdir, m.envs[e].asid);
    if pde.lo.v {
      var pte := ReadVpt(m, vpn, {}, e, m.envs[e].pgdir, m.envs[e].asid);
      if pte.w.lo.v {
        ok := Duppage(m, e, child, vpn, pte.w.lo);
        SweptOver(pt0, pt, tabs, freeList, free0, e, child, vpn, m.pt, m.tabs, m.freeList);
        return;
      }
    }
    SweptPast(pt0, pt, tabs, |freeList|, free0, e, child, vpn);
    ok := true;
  }

  lemma SweptAhead(pt0: PageTable, pt: PageTable, tabs: Tables, free: nat, free0: nat, e: nat, child: nat, n: nat)
    requires Swept(pt0, pt, tabs, free, free0, e, child, n)
    ensures (child, n) !in pt && ((e, n) in pt <==> (e, n) in pt0)
  {
  }

  /**
    fork for the running environment `e`: the child is created with an empty address space, then every
    mapped page below USTACKTOP is duplicated, one page after another. The outcome is the fork step of the
    copy-on-write machine exactly when there was a page for the child's directory and for each of its tables.
   */
  method Fork(m: Machine, e: nat, child: nat, base: nat) returns (r: Alloced, ok: bool)
    requires m.Valid() && e in m.envs && child !in m.envs && base < m.npage
    requires forall k :: k in m.pt ==> UTEMP_VPN <= k.1
    modifies m`mem, m`ppRef, m`freeList, m`tlb, m`asidUsed, m`envs, m`tabs, m`pt, m`role, m`owner
    ensures m.Valid()
    ensures r == NoAsid <==> false !in old(m.asidUsed)
    ensures r == NoDirectory <==> false in old(m.asidUsed) && old(m.freeList) == []
    ensures !r.Created? ==> m.envs == old(m.envs) && m.pt == old(m.pt)
    ensures r.Created? ==> m.envs.Keys == old(m.envs).Keys + {child}
    ensures ok <==> false in old(m.asidUsed) && |old(m.freeList)| > |Windows(old(m.pt), e, USTACK_VPN)|
    ensures r.Created? ==> (ok <==> Cow.Step(old(View(m)), View(m), Cow.Act.Fork(e, child)))
    ensures ok ==> m.NoNewData(old(m.role), m.npage)
    ensures ok ==> m.tabs.Keys == old(m.tabs).Keys + ChildTables(child, Windows(old(m.pt), e, USTACK_VPN))
  {
    hide WalkOk, RolesOk, AsidsOk, TlbOk, WindowOk, Cow.SweepPt, DataKept, FewRoles, Windows;
    r := EnvAlloc(m, child, base);
    ok := false;
    if !r.Created? {
      return;
    }
    ghost var mem, role := m.mem, m.role;
    ok := Sweep(m, e, child);
    KeptThen(old(m.mem), old(m.role), mem, role, m.mem, m.role, m.npage);
    NoMappingsYet(old(m.mem), old(m.envs), old(m.tabs), old(m.pt), child);
    TablesAre(old(m.tabs), m.tabs, child);
    KeepData(m, old(m.mem), old(m.pt), old(m.role), old(m.ppRef), old(m.freeList), old(m.envs), old(m.tabs));
  }

  // ---- the copy-on-write handler ----

  datatype CowResult = Resumed | NotCow | Failed

  /** memcpy from page `src` to page `dst`, one word at a time. */
  method CopyPage(m: Machine, dst: nat, src: nat)
    requires m.Valid() && dst < m.npage && src < m.npage && dst != src && m.role[dst] == Data
    modifies m`mem
    ensures m.Valid() && m.mem == old(m.mem)[dst := old(m.mem)[src]]
  {
    hide WalkOk, RolesOk, AsidsOk, TlbOk, WindowOk;
    for i := 0 to NPTE
      invariant m.Valid() && |m.mem| == |old(m.mem)|
      invariant forall p :: 0 <= p < |m.mem| && p != dst ==> m.mem[p] == old(m.mem)[p]
      invariant forall j :: 0 <= j < i ==> m.mem[dst][j] == old(m.mem)[src][j]
    {
      ghost var f: Frame := m.mem[dst][i := m.mem[src][i]];
      DataWriteWalk(m.mem, m.ppRef, m.freeList, m.envs, m.tabs, m.pt, m.role, dst, f);
      m.mem := m.mem[dst := m.mem[dst][i := m.mem[src][i]]];
    }
    assert m.mem[dst] == old(m.mem)[src];
  }

  /**
    cow_entry for a fault at `va`: allocate at UCOW, copy, remap, unmap UCOW. In the end the page is
    private, writable and holds what it held, and no other mapping and no other page has changed.
   */
  method CowEntry(m: Machine, e: nat, va: nat) returns (r: CowResult)
    requires m.Valid() && e in m.envs && UTEMP <= va < UTOP && (e, Vpn(va)) in m.pt
    requires (e, UCOW_VPN) !in m.pt && Vpn(va) != UCOW_VPN
    modifies m`mem, m`ppRef, m`freeList, m`tlb, m`pt, m`role, m`tabs
    ensures m.Valid()
    ensures r == NotCow <==> !old(m.pt)[(e, Vpn(va))].lo.cow
    ensures r == NotCow ==> m.mem == old(m.mem)
    ensures r == Failed <==> old(m.pt)[(e, Vpn(va))].lo.cow && Short(|old(m.freeList)|, old(m.tabs).Keys, e, UCOW_VPN)
    ensures r != Resumed ==> m.pt == old(m.pt) && m.SameData(old(m.mem), old(m.role))
    ensures r == Resumed ==> var k := (e, Vpn(va)); var w := old(m.pt)[k];
      && m.pt.Keys == old(m.pt).Keys && w.hi < m.npage
      && m.pt == old(m.pt)[k := m.pt[k]]
      && m.pt[k].lo == w.lo.(cow := false, d := true)
      && m.pt[k].hi < m.npage && !Cow.Used(old(m.pt), m.pt[k].hi) && m.mem[m.pt[k].hi] == old(m.mem)[w.hi]
      && Cow.Keep(old(View(m)), View(m))
    ensures r == Resumed ==>
      m.tabs.Keys == old(m.tabs).Keys + {(e, Pdx(UCOW_VPN))} && Taken(m, old(m.role), m.pt[(e, Vpn(va))].hi)
  {
    hide WalkOk, RolesOk, AsidsOk, TlbOk, WindowOk, DataKept, FewRoles, Cow.Keep, Short;
    var va0 := va / BY2PG * BY2PG;
    assert Vpn(UCOW) == UCOW_VPN && Vpn(va0) == Vpn(va);
    var pp, pte := m.PageLookup(m.envs[e].pgdir, Vpn(va0), e);
    WalkPte(m.mem, m.envs, m.tabs, m.pt, e, Vpn(va));
    RoleOf(m.ppRef, m.freeList, m.envs, m.tabs, m.pt, m.role, e, Vpn(va));
    KeptSelf(m.mem, m.role);
    var perm := m.mem[pte.frame][pte.index].lo;
    if !perm.cow {
      return NotCow;
    }
    perm := perm.(cow := false);
    perm := perm.(d := true);
    r := CopyAndMove(m, e, va0, pp, perm);
  }

  /** Page `p` has come from the free list, and the use of other pages has changed as FewRoles says. */
  ghost predicate Taken(m: Machine, role: seq<Role>, p: nat)
    reads m
  { p < |m.role| == |role| && role[p] == Free && m.role[p] == Data && m.NoNewData(role, p) }

  /** Steps 3 to 6 of cow_entry. */
  method CopyAndMove(m: Machine, e: nat, va: nat, pp: nat, perm: Flags) returns (r: CowResult)
    requires m.Valid() && e in m.envs && !IllegalVa(va) && Vpn(va) != UCOW_VPN && Vpn(UCOW) == UCOW_VPN
    requires (e, Vpn(va)) in m.pt && m.pt[(e, Vpn(va))].hi == pp < m.npage && m.role[pp] == Data
    requires (e, UCOW_VPN) !in m.pt
    modifies m`mem, m`ppRef, m`freeList, m`tlb, m`pt, m`role, m`tabs
    ensures m.Valid()
    ensures r == if Short(|old(m.freeList)|, old(m.tabs).Keys, e, UCOW_VPN) then Failed else Resumed
    ensures r == Failed ==> m.pt == old(m.pt) && m.SameData(old(m.mem), old(m.role))
    ensures r == Resumed ==> var k := (e, Vpn(va));
      && m.pt.Keys == old(m.pt).Keys && m.pt == old(m.pt)[k := m.pt[k]] && m.pt[k].lo == perm.(v := true)
      && m.pt[k].hi < m.npage && !Cow.Used(old(m.pt), m.pt[k].hi) && m.mem[m.pt[k].hi] == old(m.mem)[pp]
      && Cow.Keep(old(View(m)), View(m))
    ensures r == Resumed ==>
      m.tabs.Keys == old(m.tabs).Keys + {(e, Pdx(UCOW_VPN))} && Taken(m, old(m.role), m.pt[(e, Vpn(va))].hi)
  {
    hide WalkOk, RolesOk, AsidsOk, TlbOk, WindowOk, DataKept, FewRoles, Cow.Keep, Cow.Used, Short;
    var ret, up := CopyToUcow(m, e, Vpn(va), pp, perm);
    if ret < 0 {
      return Failed;
    }
    ghost var mem, role := m.mem, m.role;
    ret := MoveFromUcow(m, e, va, up, perm);
    KeptThen(old(m.mem), old(m.role), mem, role, m.mem, m.role, up);
    assert old(m.pt)[(e, UCOW_VPN) := m.pt[(e, Vpn(va))]][(e, Vpn(va)) := m.pt[(e, Vpn(va))]] - {(e, UCOW_VPN)}
      == old(m.pt)[(e, Vpn(va)) := m.pt[(e, Vpn(va))]];
    if ret < 0 {
      assert false;   // the faulting page is mapped, so its table is there
    }
    KeepData(m, old(m.mem), old(m.pt), old(m.role), old(m.ppRef), old(m.freeList), old(m.envs), old(m.tabs));
    r := Resumed;
  }

  /** Steps 3 and 4 of cow_entry: a new page at UCOW, and the faulting page's contents in it. */
  method CopyToUcow(m: Machine, e: nat, vpn: nat, pp: nat, perm: Flags) returns (ret: int, up: nat)
    requires m.Valid() && e in m.envs && vpn < NVPN && vpn != UCOW_VPN && Vpn(UCOW) == UCOW_VPN
    requires (e, vpn) in m.pt && m.pt[(e, vpn)].hi == pp < m.npage && m.role[pp] == Data
    modifies m`mem, m`ppRef, m`freeList, m`tlb, m`pt, m`role, m`tabs
    ensures m.Valid()
    ensures ret == AllocResult(|old(m.freeList)|, old(m.tabs).Keys, e, UCOW) && ret != -E_INVAL
    ensures ret != 0 ==> m.pt == old(m.pt) && m.SameData(old(m.mem), old(m.role))
    ensures ret == 0 ==> up < m.npage && old(m.role)[up] == Free && m.role[up] == Data && !Cow.Used(old(m.pt), up)
    ensures ret == 0 ==> up <= 0xf_ffff && m.pt == old(m.pt)[(e, UCOW_VPN) := Word(up, perm.(v := true))]
    ensures ret == 0 ==> m.mem[up] == old(m.mem)[pp]
    ensures ret == 0 ==> m.SameData(old(m.mem), old(m.role)) && m.NoNewData(old(m.role), up)
    ensures ret == 0 ==> m.tabs.Keys == old(m.tabs).Keys + {(e, Pdx(UCOW_VPN))}
  {
    hide WalkOk, RolesOk, AsidsOk, TlbOk, WindowOk;
    up := 0;
    if m.freeList != [] {
      FreeUnused(m.ppRef, m.freeList, m.envs, m.tabs, m.pt, m.role);
    }
    ret := SysMemAlloc(m, UCOW, perm, e);
    if ret < 0 {
      return ret, 0;
    }
    RoleOf(m.ppRef, m.freeList, m.envs, m.tabs, m.pt, m.role, e, vpn);
    var upte: PteAddr;
    up, upte := m.PageLookup(m.envs[e].pgdir, UCOW_VPN, e);
    CopyPage(m, up, pp);
  }

  /** Steps 5 and 6 of cow_entry: the copy goes to the faulting page, and UCOW is released. */
  method MoveFromUcow(m: Machine, e: nat, va: nat, p: nat, perm: Flags) returns (ret: int)
    requires m.Valid() && e in m.envs && !IllegalVa(va) && Vpn(va) != UCOW_VPN && Vpn(UCOW) == UCOW_VPN
    requires (e, Vpn(va)) in m.pt && (e, UCOW_VPN) in m.pt && m.pt[(e, UCOW_VPN)].hi == p < m.npage
    modifies m`mem, m`ppRef, m`freeList, m`tlb, m`pt, m`role, m`tabs
    ensures m.Valid()
    ensures ret == 0
    ensures m.pt == old(m.pt)[(e, Vpn(va)) := Word(p, perm.(v := true))] - {(e, UCOW_VPN)}
    ensures m.mem[p] == old(m.mem)[p] && m.tabs.Keys == old(m.tabs).Keys && m.role[p] == Data
    ensures m.SameData(old(m.mem), old(m.role)) && m.NoNewData(old(m.role), m.npage)
  {
    hide WalkOk, RolesOk, AsidsOk, TlbOk, WindowOk;
    RoleOf(m.ppRef, m.freeList, m.envs, m.tabs, m.pt, m.role, e, UCOW_VPN);
    WalkPte(m.mem, m.envs, m.tabs, m.pt, e, Vpn(va));
    ret := SysMemMap(m, e, UCOW, e, va, perm);
    if ret < 0 {
      return ret;
    }
    ret := SysMemUnmap(m, UCOW, e);
    RoleOf(m.ppRef, m.freeList, m.envs, m.tabs, m.pt, m.role, e, Vpn(va));
  }
}
