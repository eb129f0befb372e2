/** Physical pages, two-level page tables and the TLB (kern/pmap.c, kern/tlbex.c, kern/tlb_asm.S). */
module Pmap {
  import opened Mmu

  // What env_pgdir and env_asid say of a live environment; `pgdir` is a page number.
  datatype EnvVm = EnvVm(pgdir: nat, asid: nat)

  // What a physical page is used for. Boot pages are below `freemem` and never counted;
  // a Limbo page has been allocated and is not mapped anywhere yet; a Spare page has been set up as a directory
  // and counted, and no environment has it.
  datatype Role = Boot | Free | Limbo | Spare | Dir(env: nat) | Table(env: nat, pdx: nat) | Data

  // The entry a page table walk ends at.
  datatype PteAddr = NoPte | Pte(frame: nat, index: nat)

  // The flat reading of the two-level structures of all environments:
  // (environment, pdx) to the page of the table, (environment, vpn) to the entry.
  type Tables = map<(nat, nat), nat>
  type PageTable = map<(nat, nat), Word>

  /** The user entries that name page `p`. */
  ghost function UserRefs(pt: PageTable, p: nat): set<(nat, nat)> {
    set k | k in pt && pt[k].hi == p
  }

  /** The directory entries that use page `p` as a table. */
  ghost function TableRefs(tabs: Tables, p: nat): set<(nat, nat)> {
    set k | k in tabs && tabs[k] == p
  }

  /** The environments whose page directory is held in page `p`. */
  ghost function DirRefs(envs: map<nat, EnvVm>, p: nat): set<nat> {
    set e | e in envs && envs[e].pgdir == p
  }

  /** The entries and the tables of all environments but `e`. */
  ghost function OthersPt(pt: PageTable, e: nat): PageTable {
    map k | k in pt && k.0 != e :: pt[k]
  }

  ghost function OthersTabs(tabs: Tables, e: nat): Tables {
    map k | k in tabs && k.0 != e :: tabs[k]
  }

  /** Too few free pages for a new page at `vpn` of `e` and, where it is missing, the table it needs. */
  predicate Short(free: nat, tables: set<(nat, nat)>, e: nat, vpn: nat) {
    free == 0 || (free == 1 && (e, Pdx(vpn)) !in tables)
  }

  ghost predicate NoDup(s: seq<nat>) {
    forall i, j :: 0 <= i < j < |s| ==> s[i] != s[j]
  }

  /** Following the directory and the table in memory gives exactly `tabs` and `pt`; a directory names itself. */
  ghost predicate WalkOk(mem: seq<Frame>, envs: map<nat, EnvVm>, tabs: Tables, pt: PageTable) {
    && (forall e :: e in envs ==> envs[e].pgdir < |mem|)
    && (forall e {:trigger mem[envs[e].pgdir]} :: e in envs ==>
          mem[envs[e].pgdir][PDX_UVPT].lo.v && mem[envs[e].pgdir][PDX_UVPT].hi == envs[e].pgdir)
    && (forall e, i :: (e, i) in tabs ==> e in envs && i < NPD && tabs[(e, i)] < |mem|)
    && (forall e, v :: (e, v) in pt ==> v < NVPN && (e, Pdx(v)) in tabs && pt[(e, v)].hi < |mem|)
    && (forall e, i: nat {:trigger (e, i) in tabs} {:trigger mem[envs[e].pgdir][i]} ::
          e in envs && i < NPD ==>
            && (mem[envs[e].pgdir][i].lo.v <==> (e, i) in tabs)
            && (mem[envs[e].pgdir][i].lo.v ==> mem[envs[e].pgdir][i].hi == tabs[(e, i)]))
    && (forall e, v: nat {:trigger (e, v) in pt} ::
          (e, Pdx(v)) in tabs ==>
            && (mem[tabs[(e, Pdx(v))]][Ptx(v)].lo.v <==> (e, v) in pt)
            && (mem[tabs[(e, Pdx(v))]][Ptx(v)].lo.v ==> mem[tabs[(e, Pdx(v))]][Ptx(v)] == pt[(e, v)]))
  }

  /** Every page has one use, counted by its reference count; the free list holds the free ones. */
  ghost predicate RolesOk(ppRef: seq<nat>, freeList: seq<nat>, envs: map<nat, EnvVm>, tabs: Tables,
                          pt: PageTable, role: seq<Role>)
  {
    && |role| == |ppRef|
    && FreeOk(freeList, role)
    && UsesOk(envs, tabs, pt, role)
    && CountsOk(ppRef, envs, tabs, pt, role)
  }

  /** The free list holds each Free page once. */
  ghost predicate FreeOk(freeList: seq<nat>, role: seq<Role>) {
    && (forall p {:trigger p in freeList} :: p in freeList <==> 0 <= p < |role| && role[p] == Free)
    && NoDup(freeList)
  }

  /** What the directories, the tables and the entries name has the role it is named for. */
  ghost predicate UsesOk(envs: map<nat, EnvVm>, tabs: Tables, pt: PageTable, role: seq<Role>) {
    && (forall e :: e in envs ==> envs[e].pgdir < |role| && role[envs[e].pgdir] == Dir(e))
    && (forall e, i :: (e, i) in tabs ==> tabs[(e, i)] < |role| && role[tabs[(e, i)]] == Table(e, i))
    && (forall e, v :: (e, v) in pt ==> pt[(e, v)].hi < |role| && role[pt[(e, v)].hi] == Data)
  }

  /** Each page that has a role is named by what its role says, and counted. */
  ghost predicate CountsOk(ppRef: seq<nat>, envs: map<nat, EnvVm>, tabs: Tables, pt: PageTable, role: seq<Role>)
    requires |role| == |ppRef|
  {
    forall p {:trigger role[p]} :: 0 <= p < |role| ==> CountOk(p, ppRef[p], envs, tabs, pt, role[p])
  }

  ghost predicate CountOk(p: nat, ref: nat, envs: map<nat, EnvVm>, tabs: Tables, pt: PageTable, use: Role) {
    match use
    case Boot => ref == 1
    case Free => ref == 0
    case Limbo => ref == 0
    case Spare => ref == 1
    case Dir(e) => e in envs && envs[e].pgdir == p && ref == 1
    case Table(e, i) => (e, i) in tabs && tabs[(e, i)] == p && ref == 1
    case Data => ref > 0 && ref == |UserRefs(pt, p)|
  }

  /** `owner` inverts the assignment of ASIDs to live environments. */
  ghost predicate AsidsOk(asidUsed: seq<bool>, envs: map<nat, EnvVm>, owner: map<nat, nat>) {
    && |asidUsed| == NASID
    && (forall a: nat :: a in owner <==> a < NASID && asidUsed[a])
    && (forall a :: a in owner ==> owner[a] in envs && envs[owner[a]].asid == a)
    && (forall e :: e in envs ==> envs[e].asid in owner && owner[envs[e].asid] == e)
  }

  /** A TLB entry for a user page is tagged with a live ASID and equals that environment's entry. */
  ghost predicate TlbOk(tlb: map<(nat, nat), Word>, envs: map<nat, EnvVm>, owner: map<nat, nat>, pt: PageTable) {
    forall a, v :: (a, v) in tlb && v < NVPN ==>
      a in owner && (owner[a], v) in pt && pt[(owner[a], v)] == tlb[(a, v)]
  }

  /** What the window page `v` of environment `e` is: the directory itself, or one of its tables. */
  ghost predicate WindowPage(envs: map<nat, EnvVm>, tabs: Tables, e: nat, v: nat, p: nat) {
    && e in envs
    && if v == VPN_UVPT + PDX_UVPT then p == envs[e].pgdir
       else VPN_UVPT <= v && (e, v - VPN_UVPT) in tabs && p == tabs[(e, v - VPN_UVPT)]
  }

  /** A TLB entry above the user pages is tagged with a live ASID and names a table that environment has now. */
  ghost predicate WindowOk(tlb: map<(nat, nat), Word>, envs: map<nat, EnvVm>, owner: map<nat, nat>, tabs: Tables) {
    forall a, v {:trigger (a, v) in tlb} :: (a, v) in tlb && v >= NVPN ==>
      a in owner && WindowPage(envs, tabs, owner[a], v, tlb[(a, v)].hi)
  }

  /** Fewer entries, or more tables, are no harm. */
  lemma WindowLess(tlb: map<(nat, nat), Word>, tlb': map<(nat, nat), Word>, envs: map<nat, EnvVm>,
                   owner: map<nat, nat>, tabs: Tables, tabs': Tables)
    requires WindowOk(tlb, envs, owner, tabs)
    requires forall k :: k in tlb' && k.1 >= NVPN ==> k in tlb && tlb'[k] == tlb[k]
    requires forall k :: k in tabs ==> k in tabs' && tabs'[k] == tabs[k]
    ensures WindowOk(tlb', envs, owner, tabs')
  {
  }

  // ---- counting references ----

  lemma UserRefsAdd(pt: PageTable, k: (nat, nat), w: Word, p: nat)
    requires k !in pt
    ensures UserRefs(pt[k := w], p) == UserRefs(pt, p) + (if w.hi == p then {k} else {})
    ensures |UserRefs(pt[k := w], p)| == |UserRefs(pt, p)| + (if w.hi == p then 1 else 0)
  {
    assert UserRefs(pt[k := w], p) == UserRefs(pt, p) + (if w.hi == p then {k} else {});
  }

  lemma UserRefsDrop(pt: PageTable, k: (nat, nat), p: nat)
    requires k in pt
    ensures UserRefs(pt, p) == UserRefs(pt - {k}, p) + (if pt[k].hi == p then {k} else {})
    ensures |UserRefs(pt, p)| == |UserRefs(pt - {k}, p)| + (if pt[k].hi == p then 1 else 0)
  {
    assert UserRefs(pt, p) == UserRefs(pt - {k}, p) + (if pt[k].hi == p then {k} else {});
  }

  lemma UserRefsSame(pt: PageTable, k: (nat, nat), w: Word, p: nat)
    requires k in pt && pt[k].hi == w.hi
    ensures UserRefs(pt[k := w], p) == UserRefs(pt, p)
  {
  }

  // ---- single updates of the tables ----

  lemma WalkPde(mem: seq<Frame>, envs: map<nat, EnvVm>, tabs: Tables, pt: PageTable, e: nat, i: nat)
    requires WalkOk(mem, envs, tabs, pt) && e in envs && i < NPD
    ensures envs[e].pgdir < |mem|
    ensures (e, i) in tabs <==> mem[envs[e].pgdir][i].lo.v
    ensures (e, i) in tabs ==> tabs[(e, i)] == mem[envs[e].pgdir][i].hi < |mem|
  {
  }

  /** A zeroed page that serves nothing else may become the table of an empty directory entry. */
  lemma NewTableWalk(mem: seq<Frame>, ppRef: seq<nat>, freeList: seq<nat>, envs: map<nat, EnvVm>, tabs: Tables,
                     pt: PageTable, role: seq<Role>, e: nat, i: nat, t: nat, w: Word)
    requires WalkOk(mem, envs, tabs, pt) && RolesOk(ppRef, freeList, envs, tabs, pt, role) && |role| == |mem|
    requires e in envs && i < NPD && (e, i) !in tabs && t < |mem| && mem[t] == ZeroFrame()
    requires role[t] == Limbo && w.lo.v && w.hi == t
    ensures role[envs[e].pgdir] == Dir(e)
    ensures WalkOk(mem[envs[e].pgdir := mem[envs[e].pgdir][i := w]], envs, tabs[(e, i) := t], pt)
  {
    var d := envs[e].pgdir;
    var mem' := mem[d := mem[d][i := w]];
    assert role[d] == Dir(e);
    var tabs' := tabs[(e, i) := t];
    forall x, y: nat | x in envs && y < NPD
      ensures mem'[envs[x].pgdir][y].lo.v <==> (x, y) in tabs'
      ensures mem'[envs[x].pgdir][y].lo.v ==> mem'[envs[x].pgdir][y].hi == tabs'[(x, y)]
    {
      assert role[envs[x].pgdir] == Dir(x);
      assert mem[envs[x].pgdir][y].lo.v <==> (x, y) in tabs;
    }
    forall x, v: nat | (x, Pdx(v)) in tabs'
      ensures mem'[tabs'[(x, Pdx(v))]][Ptx(v)].lo.v <==> (x, v) in pt
      ensures mem'[tabs'[(x, Pdx(v))]][Ptx(v)].lo.v ==> mem'[tabs'[(x, Pdx(v))]][Ptx(v)] == pt[(x, v)]
    {
      if (x, Pdx(v)) in tabs {
        assert role[tabs[(x, Pdx(v))]] == Table(x, Pdx(v));
      }
    }
  }

  lemma NewTableRoles(ppRef: seq<nat>, freeList: seq<nat>, envs: map<nat, EnvVm>, tabs: Tables, pt: PageTable,
                      role: seq<Role>, e: nat, i: nat, t: nat)
    requires RolesOk(ppRef, freeList, envs, tabs, pt, role)
    requires (e, i) !in tabs && t < |role| && role[t] == Limbo
    ensures RolesOk(ppRef[t := 1], freeList, envs, tabs[(e, i) := t], pt, role[t := Table(e, i)])
  {
  }

  lemma WalkPte(mem: seq<Frame>, envs: map<nat, EnvVm>, tabs: Tables, pt: PageTable, e: nat, v: nat)
    requires WalkOk(mem, envs, tabs, pt) && v < NVPN
    ensures (e, v) in pt ==> e in envs && (e, Pdx(v)) in tabs && pt[(e, v)].lo.v && pt[(e, v)].hi < |mem|
    ensures (e, Pdx(v)) in tabs ==>
      && tabs[(e, Pdx(v))] < |mem|
      && ((e, v) in pt <==> mem[tabs[(e, Pdx(v))]][Ptx(v)].lo.v)
      && ((e, v) in pt ==> mem[tabs[(e, Pdx(v))]][Ptx(v)] == pt[(e, v)])
  {
  }

  lemma RoleOf(ppRef: seq<nat>, freeList: seq<nat>, envs: map<nat, EnvVm>, tabs: Tables, pt: PageTable,
               role: seq<Role>, e: nat, v: nat)
    requires RolesOk(ppRef, freeList, envs, tabs, pt, role)
    ensures e in envs ==> envs[e].pgdir < |role| && role[envs[e].pgdir] == Dir(e)
    ensures (e, Pdx(v)) in tabs ==> tabs[(e, Pdx(v))] < |role| && role[tabs[(e, Pdx(v))]] == Table(e, Pdx(v))
    ensures (e, v) in pt ==> pt[(e, v)].hi < |role| && role[pt[(e, v)].hi] == Data && ppRef[pt[(e, v)].hi] > 0
  {
  }

  /** Writing a valid entry into the table of `v` changes the flat reading at (e, v) only. */
  lemma SetPteWalk(mem: seq<Frame>, ppRef: seq<nat>, freeList: seq<nat>, envs: map<nat, EnvVm>, tabs: Tables,
                   pt: PageTable, role: seq<Role>, e: nat, v: nat, w: Word)
    requires WalkOk(mem, envs, tabs, pt) && RolesOk(ppRef, freeList, envs, tabs, pt, role) && |role| == |mem|
    requires v < NVPN && (e, Pdx(v)) in tabs && w.lo.v && w.hi < |mem|
    ensures var t := tabs[(e, Pdx(v))];
      WalkOk(mem[t := mem[t][Ptx(v) := w]], envs, tabs, pt[(e, v) := w])
  {
    var t := tabs[(e, Pdx(v))];
    var mem' := mem[t := mem[t][Ptx(v) := w]];
    var pt' := pt[(e, v) := w];
    TableWrite(mem, ppRef, freeList, envs, tabs, pt, role, e, v, w);
    forall x, y: nat | (x, Pdx(y)) in tabs
      ensures mem'[tabs[(x, Pdx(y))]][Ptx(y)].lo.v <==> (x, y) in pt'
      ensures mem'[tabs[(x, Pdx(y))]][Ptx(y)].lo.v ==> mem'[tabs[(x, Pdx(y))]][Ptx(y)] == pt'[(x, y)]
    {
      assert (x, y) in pt <==> mem[tabs[(x, Pdx(y))]][Ptx(y)].lo.v;
    }
  }

  /** Clearing the entry of `v` removes (e, v) from the flat reading and nothing else. */
  lemma ClearPteWalk(mem: seq<Frame>, ppRef: seq<nat>, freeList: seq<nat>, envs: map<nat, EnvVm>, tabs: Tables,
                     pt: PageTable, role: seq<Role>, e: nat, v: nat)
    requires WalkOk(mem, envs, tabs, pt) && RolesOk(ppRef, freeList, envs, tabs, pt, role) && |role| == |mem|
    requires v < NVPN && (e, Pdx(v)) in tabs
    ensures var t := tabs[(e, Pdx(v))];
      WalkOk(mem[t := mem[t][Ptx(v) := ZERO]], envs, tabs, pt - {(e, v)})
  {
    var t := tabs[(e, Pdx(v))];
    var mem' := mem[t := mem[t][Ptx(v) := ZERO]];
    var pt' := pt - {(e, v)};
    TableWrite(mem, ppRef, freeList, envs, tabs, pt, role, e, v, ZERO);
    forall x, y: nat | (x, Pdx(y)) in tabs
      ensures mem'[tabs[(x, Pdx(y))]][Ptx(y)].lo.v <==> (x, y) in pt'
      ensures mem'[tabs[(x, Pdx(y))]][Ptx(y)].lo.v ==> mem'[tabs[(x, Pdx(y))]][Ptx(y)] == pt'[(x, y)]
    {
      assert (x, y) in pt <==> mem[tabs[(x, Pdx(y))]][Ptx(y)].lo.v;
    }
  }

  /** A write to the table of `v` reaches no directory and no other entry of any table. */
  lemma TableWrite(mem: seq<Frame>, ppRef: seq<nat>, freeList: seq<nat>, envs: map<nat, EnvVm>, tabs: Tables,
                   pt: PageTable, role: seq<Role>, e: nat, v: nat, w: Word)
    requires WalkOk(mem, envs, tabs, pt) && RolesOk(ppRef, freeList, envs, tabs, pt, role) && |role| == |mem|
    requires (e, Pdx(v)) in tabs
    ensures var t := tabs[(e, Pdx(v))]; var mem' := mem[t := mem[t][Ptx(v) := w]];
      && (forall x :: x in envs ==> mem'[envs[x].pgdir] == mem[envs[x].pgdir])
      && (forall x, y: nat {:trigger (x, y) in pt} :: (x, Pdx(y)) in tabs && (x, y) != (e, v) ==>
            mem'[tabs[(x, Pdx(y))]][Ptx(y)] == mem[tabs[(x, Pdx(y))]][Ptx(y)])
  {
    hide WalkOk, RolesOk;
    forall x | x in envs ensures envs[x].pgdir < |mem| && envs[x].pgdir != tabs[(e, Pdx(v))] {
      RoleOf(ppRef, freeList, envs, tabs, pt, role, x, 0);
      RoleOf(ppRef, freeList, envs, tabs, pt, role, e, v);
    }
    forall x, y: nat | (x, Pdx(y)) in tabs && (x, y) != (e, v)
      ensures tabs[(x, Pdx(y))] < |mem|
      ensures tabs[(x, Pdx(y))] != tabs[(e, Pdx(v))] || Ptx(y) != Ptx(v)
    {
      RoleOf(ppRef, freeList, envs, tabs, pt, role, x, y);
      RoleOf(ppRef, freeList, envs, tabs, pt, role, e, v);
    }
  }

  /** User data in a Data page is never read as a directory or a table. */
  lemma DataWriteWalk(mem: seq<Frame>, ppRef: seq<nat>, freeList: seq<nat>, envs: map<nat, EnvVm>, tabs: Tables,
                      pt: PageTable, role: seq<Role>, p: nat, f: Frame)
    requires WalkOk(mem, envs, tabs, pt) && RolesOk(ppRef, freeList, envs, tabs, pt, role) && |role| == |mem|
    requires p < |mem| && (role[p] == Data || role[p] == Limbo)
    ensures WalkOk(mem[p := f], envs, tabs, pt)
  {
    forall x | x in envs ensures envs[x].pgdir != p {
      assert role[envs[x].pgdir] == Dir(x);
    }
    forall x, i | (x, i) in tabs ensures tabs[(x, i)] != p {
      assert role[tabs[(x, i)]] == Table(x, i);
    }
  }

  /** The head of the free list is set aside. */
  lemma TakeFree(ppRef: seq<nat>, freeList: seq<nat>, envs: map<nat, EnvVm>, tabs: Tables, pt: PageTable,
                 role: seq<Role>)
    requires RolesOk(ppRef, freeList, envs, tabs, pt, role) && freeList != []
    ensures freeList[0] < |role| && role[freeList[0]] == Free
    ensures RolesOk(ppRef, freeList[1..], envs, tabs, pt, role[freeList[0] := Limbo])
  {
    var p := freeList[0];
    assert p in freeList;
    var role' := role[p := Limbo];
    assert FreeOk(freeList[1..], role') by {
      assert forall x :: x in freeList[1..] <==> x in freeList && x != p;
    }
    assert UsesOk(envs, tabs, pt, role') by { hide CountsOk, FreeOk; }
    assert CountsOk(ppRef, envs, tabs, pt, role') by {
      hide UsesOk, FreeOk;
      assert CountOk(p, ppRef[p], envs, tabs, pt, role[p]);
    }
  }

  /** A free page is never read as a directory or a table. */
  lemma FreeWriteWalk(mem: seq<Frame>, ppRef: seq<nat>, freeList: seq<nat>, envs: map<nat, EnvVm>, tabs: Tables,
                      pt: PageTable, role: seq<Role>, p: nat, f: Frame)
    requires WalkOk(mem, envs, tabs, pt) && RolesOk(ppRef, freeList, envs, tabs, pt, role) && |role| == |mem|
    requires p < |mem| && role[p] == Free
    ensures WalkOk(mem[p := f], envs, tabs, pt)
  {
    hide FreeOk, CountsOk;
    forall x | x in envs ensures envs[x].pgdir != p {
      assert role[envs[x].pgdir] == Dir(x);
    }
    forall x, i | (x, i) in tabs ensures tabs[(x, i)] != p {
      assert role[tabs[(x, i)]] == Table(x, i);
    }
  }

  /** One more mapping of page `p` at an unmapped place: its count goes up by one. */
  lemma MapRoles(ppRef: seq<nat>, freeList: seq<nat>, envs: map<nat, EnvVm>, tabs: Tables, pt: PageTable,
                 role: seq<Role>, k: (nat, nat), w: Word)
    requires RolesOk(ppRef, freeList, envs, tabs, pt, role)
    requires k !in pt && w.hi < |role| && (role[w.hi] == Data || role[w.hi] == Limbo)
    ensures RolesOk(ppRef[w.hi := ppRef[w.hi] + 1], freeList, envs, tabs, pt[k := w], role[w.hi := Data])
  {
    var ppRef', role' := ppRef[w.hi := ppRef[w.hi] + 1], role[w.hi := Data];
    if role[w.hi] == Limbo {
      forall x | x in pt ensures pt[x].hi != w.hi {
        assert role[pt[(x.0, x.1)].hi] == Data;
      }
      assert UserRefs(pt, w.hi) == {};
    }
    forall q {:trigger role'[q]} | 0 <= q < |role|
      ensures CountOk(q, ppRef'[q], envs, tabs, pt[k := w], role'[q])
    {
      assert CountOk(q, ppRef[q], envs, tabs, pt, role[q]);
      UserRefsAdd(pt, k, w, q);
    }
    assert w.hi !in freeList;
  }

  /** New flags for the same page at the same place: no count changes. */
  lemma RemapRoles(ppRef: seq<nat>, freeList: seq<nat>, envs: map<nat, EnvVm>, tabs: Tables, pt: PageTable,
                   role: seq<Role>, k: (nat, nat), w: Word)
    requires RolesOk(ppRef, freeList, envs, tabs, pt, role)
    requires k in pt && pt[k].hi == w.hi
    ensures RolesOk(ppRef, freeList, envs, tabs, pt[k := w], role)
  {
    forall p | 0 <= p < |role| {
      UserRefsSame(pt, k, w, p);
    }
    assert role[pt[(k.0, k.1)].hi] == Data;
  }

  /** One mapping less: the count goes down by one, and the last one returns the page to the free list. */
  lemma UnmapRoles(ppRef: seq<nat>, freeList: seq<nat>, envs: map<nat, EnvVm>, tabs: Tables, pt: PageTable,
                   role: seq<Role>, k: (nat, nat))
    requires RolesOk(ppRef, freeList, envs, tabs, pt, role) && k in pt
    ensures var p := pt[k].hi;
      && p < |role| && ppRef[p] > 0
      && RolesOk(ppRef[p := ppRef[p] - 1], if ppRef[p] == 1 then [p] + freeList else freeList, envs, tabs,
                 pt - {k}, if ppRef[p] == 1 then role[p := Free] else role)
  {
    var p := pt[k].hi;
    assert role[pt[(k.0, k.1)].hi] == Data;
    assert CountOk(p, ppRef[p], envs, tabs, pt, role[p]);
    var ppRef' := ppRef[p := ppRef[p] - 1];
    var role' := if ppRef[p] == 1 then role[p := Free] else role;
    UserRefsDrop(pt, k, p);
    assert p !in freeList;
    assert FreeOk(if ppRef[p] == 1 then [p] + freeList else freeList, role') by { hide UsesOk, CountsOk, CountOk; }
    assert UsesOk(envs, tabs, pt - {k}, role') by {
      hide FreeOk, CountsOk, CountOk;
      forall x, y | (x, y) in pt - {k} ensures role'[pt[(x, y)].hi] == Data {
        assert role[pt[(x, y)].hi] == Data;
        assert pt[(x, y)].hi == p ==> (x, y) in UserRefs(pt - {k}, p);
      }
    }
    assert CountsOk(ppRef', envs, tabs, pt - {k}, role') by {
      hide FreeOk, UsesOk;
      forall q | 0 <= q < |role| ensures CountOk(q, ppRef'[q], envs, tabs, pt - {k}, role'[q]) {
        assert CountOk(q, ppRef[q], envs, tabs, pt, role[q]);
        if role[q] == Data { UserRefsDrop(pt, k, q); }
      }
    }
  }

  /** Once the TLB holds nothing for (asid, v), the entry may change. */
  lemma TlbAfterFlush(tlb: map<(nat, nat), Word>, asidUsed: seq<bool>, envs: map<nat, EnvVm>, owner: map<nat, nat>,
                      pt: PageTable, e: nat, v: nat, w: Word)
    requires TlbOk(tlb, envs, owner, pt) && AsidsOk(asidUsed, envs, owner)
    requires e in envs
    ensures var tlb' := tlb - {(envs[e].asid, v)};
      && TlbOk(tlb', envs, owner, pt) && TlbOk(tlb', envs, owner, pt[(e, v) := w])
      && TlbOk(tlb', envs, owner, pt - {(e, v)})
  {
  }

  lemma NoEntryNoTlb(tlb: map<(nat, nat), Word>, asidUsed: seq<bool>, envs: map<nat, EnvVm>, owner: map<nat, nat>,
                     pt: PageTable, e: nat, v: nat)
    requires TlbOk(tlb, envs, owner, pt) && AsidsOk(asidUsed, envs, owner)
    requires e in envs && v < NVPN && (e, v) !in pt
    ensures (envs[e].asid, v) !in tlb
  {
  }

  // ---- what the operations keep ----

  /** A page that holds user data, or is set aside for it, before and after keeps its contents. */
  ghost predicate DataKept(mem0: seq<Frame>, role0: seq<Role>, mem: seq<Frame>, role: seq<Role>) {
    |mem0| == |role0| == |mem| == |role| &&
    forall p {:trigger mem[p]} {:trigger role0[p]} ::
      0 <= p < |mem| && (role0[p] == Data || role0[p] == Limbo) && (role[p] == Data || role[p] == Limbo) ==>
      mem[p] == mem0[p]
  }

  /**
    Except possibly `pp`, no page has become a data page, and the pages set aside are the same; the boot pages and
    the directories left behind are the same without exception.
   */
  ghost predicate FewRoles(role0: seq<Role>, role: seq<Role>, pp: nat) {
    && |role0| == |role|
    && forall p {:trigger role[p]} {:trigger role0[p]} :: 0 <= p < |role| ==>
         && (p != pp ==> (role[p] == Data ==> role0[p] == Data) && (role[p] == Limbo <==> role0[p] == Limbo))
         && (role[p] == Spare <==> role0[p] == Spare) && (role[p] == Boot <==> role0[p] == Boot)
  }

  /** The pages in nobody's use that the allocator does not have either. */
  ghost function Lost(role: seq<Role>): set<nat> {
    set p: nat | p < |role| && (role[p] == Limbo || role[p] == Spare)
  }

  lemma LostSame(role0: seq<Role>, role: seq<Role>, pp: nat)
    requires FewRoles(role0, role, pp) && (pp < |role| ==> role0[pp] != Limbo && role[pp] != Limbo)
    ensures Lost(role) == Lost(role0)
  {
    assert forall p: nat :: p < |role| ==> (role[p] == Limbo <==> role0[p] == Limbo);
  }

  lemma KeptSelf(mem: seq<Frame>, role: seq<Role>)
    requires |mem| == |role|
    ensures DataKept(mem, role, mem, role) && FewRoles(role, role, |role|)
  {
  }

  lemma KeptWith(mem: seq<Frame>, role: seq<Role>, pp: nat)
    requires |mem| == |role|
    ensures DataKept(mem, role, mem, role) && FewRoles(role, role, pp)
  {
  }

  /** Two steps that keep the data, of which the second makes no new data page, keep it together. */
  lemma KeptThen(mem0: seq<Frame>, role0: seq<Role>, mem1: seq<Frame>, role1: seq<Role>, mem: seq<Frame>,
                 role: seq<Role>, pp: nat)
    requires DataKept(mem0, role0, mem1, role1) && FewRoles(role0, role1, pp)
    requires DataKept(mem1, role1, mem, role) && FewRoles(role1, role, |role|)
    ensures DataKept(mem0, role0, mem, role) && FewRoles(role0, role, pp)
  {
  }

  /** Two steps of which only the second may make a data page, of a page that had been one or set aside. */
  lemma KeptBefore(mem0: seq<Frame>, role0: seq<Role>, mem1: seq<Frame>, role1: seq<Role>, mem: seq<Frame>,
                   role: seq<Role>, pp: nat)
    requires DataKept(mem0, role0, mem1, role1) && FewRoles(role0, role1, |role1|)
    requires DataKept(mem1, role1, mem, role) && FewRoles(role1, role, pp)
    requires pp < |role1| ==> role1[pp] == Data || role1[pp] == Limbo
    ensures DataKept(mem0, role0, mem, role) && FewRoles(role0, role, pp)
  {
  }

  /** The entry of a mapped page, cleared, and the page released if that was its last mapping. */
  lemma RemoveKeeps(mem: seq<Frame>, ppRef: seq<nat>, freeList: seq<nat>, envs: map<nat, EnvVm>, tabs: Tables,
                    pt: PageTable, role: seq<Role>, e: nat, v: nat)
    requires WalkOk(mem, envs, tabs, pt) && RolesOk(ppRef, freeList, envs, tabs, pt, role) && |role| == |mem|
    requires v < NVPN && (e, v) in pt
    ensures (e, Pdx(v)) in tabs && tabs[(e, Pdx(v))] < |mem|
    ensures var p := pt[(e, v)].hi; p < |role| && role[p] == Data && ppRef[p] > 0
    ensures var p, t := pt[(e, v)].hi, tabs[(e, Pdx(v))];
      var mem', role' := mem[t := mem[t][Ptx(v) := ZERO]], if ppRef[p] == 1 then role[p := Free] else role;
      && WalkOk(mem', envs, tabs, pt - {(e, v)})
      && RolesOk(ppRef[p := ppRef[p] - 1], if ppRef[p] == 1 then [p] + freeList else freeList, envs, tabs,
                 pt - {(e, v)}, role')
      && DataKept(mem, role, mem', role') && FewRoles(role, role', |role|)
  {
    hide WalkOk, RolesOk;
    WalkPte(mem, envs, tabs, pt, e, v);
    UnmapRoles(ppRef, freeList, envs, tabs, pt, role, (e, v));
    ClearPteWalk(mem, ppRef, freeList, envs, tabs, pt, role, e, v);
    RoleOf(ppRef, freeList, envs, tabs, pt, role, e, v);
  }

  class Machine {
    const npage: nat
    var mem: seq<Frame>
    var ppRef: seq<nat>
    var freeList: seq<nat>
    var tlb: map<(nat, nat), Word>
    var asidUsed: seq<bool>
    var envs: map<nat, EnvVm>

    // The flat reading of the tables, the use of every page, and the environment of every ASID.
    ghost var tabs: Tables
    ghost var pt: PageTable
    ghost var role: seq<Role>
    ghost var owner: map<nat, nat>

    ghost predicate Valid()
      reads this
    {
      && npage <= 0x10_0000
      && |mem| == |ppRef| == |role| == npage
      && WalkOk(mem, envs, tabs, pt)
      && RolesOk(ppRef, freeList, envs, tabs, pt, role)
      && AsidsOk(asidUsed, envs, owner)
      && TlbOk(tlb, envs, owner, pt)
      && WindowOk(tlb, envs, owner, tabs)
    }

    /**
      page_init: the first `boot` pages stay out of the allocator, the others enter the free list one
      by one, each at its head.
     */
    constructor (npage: nat, boot: nat, mem: seq<Frame>)
      requires boot <= npage == |mem| <= 0x10_0000
      ensures Valid() && this.npage == npage && this.mem == mem
      ensures envs == map[] && pt == map[] && tabs == map[] && owner == map[] && tlb == map[]
      ensures |freeList| == npage - boot && forall p :: boot <= p < npage ==> p in freeList
      ensures (forall a :: 0 <= a < NASID ==> !asidUsed[a]) && Lost(role) == {}
    {
      this.npage := npage;
      this.mem := mem;
      ppRef := seq(npage, p => if p < boot then 1 else 0);
      role := seq(npage, p => if p < boot then Boot else Free);
      freeList := [];
      tlb := map[];
      asidUsed := seq(NASID, _ => false);
      envs, tabs, pt, owner := map[], map[], map[], map[];
      new;
      for i := boot to npage
        invariant this.npage == npage && this.mem == mem && |role| == |ppRef| == npage
        invariant forall p :: 0 <= p < npage ==> role[p] == if p < boot then Boot else Free
        invariant forall p :: 0 <= p < npage ==> ppRef[p] == if p < boot then 1 else 0
        invariant envs == map[] && tabs == map[] && pt == map[] && owner == map[] && tlb == map[] && |asidUsed| == NASID
        invariant forall a :: 0 <= a < NASID ==> !asidUsed[a]
        invariant |freeList| == i - boot && NoDup(freeList)
        invariant forall p :: p in freeList <==> boot <= p < i
      {
        assert forall k :: 0 <= k < |freeList| ==> freeList[k] in freeList;
        freeList := [i] + freeList;
      }
    }

    method PageAlloc() returns (r: int, pp: nat)
      requires Valid()
      modifies this`mem, this`freeList, this`role
      ensures Valid()
      ensures old(freeList) == [] ==>
        r == -E_NO_MEM && mem == old(mem) && freeList == old(freeList) && role == old(role)
      ensures old(freeList) != [] ==>
        && r == 0 && pp < npage && old(role)[pp] == Free && pp == old(freeList)[0] && freeList == old(freeList)[1..]
        && mem == old(mem)[pp := ZeroFrame()] && role == old(role)[pp := Limbo]
    {
      if freeList == [] {
        return -E_NO_MEM, 0;
      }
      hide WalkOk, RolesOk, AsidsOk, TlbOk, WindowOk;
      pp := freeList[0];
      TakeFree(ppRef, freeList, envs, tabs, pt, role);
      FreeWriteWalk(mem, ppRef, freeList, envs, tabs, pt, role, pp, ZeroFrame());
      freeList := freeList[1..];
      mem := mem[pp := ZeroFrame()];
      role := role[pp := Limbo];
      r := 0;
    }

    /** page_free: the caller must have dropped the last reference. */
    method PageFree(pp: nat)
      requires pp < |ppRef| && ppRef[pp] == 0
      modifies this`freeList
      ensures freeList == [pp] + old(freeList)
    {
      freeList := [pp] + freeList;
    }

    method PageDecref(pp: nat)
      requires pp < |ppRef| && ppRef[pp] > 0
      modifies this`ppRef, this`freeList
      ensures ppRef == old(ppRef)[pp := old(ppRef)[pp] - 1]
      ensures freeList == if old(ppRef)[pp] == 1 then [pp] + old(freeList) else old(freeList)
    {
      ppRef := ppRef[pp := ppRef[pp] - 1];
      if ppRef[pp] == 0 {
        PageFree(pp);
      }
    }

    /** tlb_invalidate: drops the entry tagged (asid, page of va), if there is one. */
    method TlbInvalidate(asid: nat, vpn: nat)
      modifies this`tlb
      ensures tlb == old(tlb) - {(asid, vpn)}
    {
      tlb := tlb - {(asid, vpn)};
    }

    /** A zeroed page, entered in the directory as a table with one reference. */
    method NewTable(pgdir: nat, i: nat, ghost e: nat) returns (r: int, pp: nat)
      requires Valid() && i < NPD && e in envs && envs[e].pgdir == pgdir && (e, i) !in tabs
      modifies this`mem, this`ppRef, this`freeList, this`role, this`tabs
      ensures Valid()
      ensures old(freeList) == [] ==> r == -E_NO_MEM
      ensures old(freeList) == [] ==>
        mem == old(mem) && ppRef == old(ppRef) && freeList == old(freeList) && role == old(role) && tabs == old(tabs)
      ensures old(freeList) != [] ==>
        && r == 0 && pp == old(freeList)[0] && freeList == old(freeList)[1..] && pp < npage && old(role)[pp] == Free
        && tabs == old(tabs)[(e, i) := pp] && role == old(role)[pp := Table(e, i)] && ppRef == old(ppRef)[pp := 1]
      ensures SameData(old(mem), old(role)) && NoNewData(old(role), npage)
    {
      hide WalkOk, RolesOk, AsidsOk, TlbOk, WindowOk, NoDup;
      r, pp := PageAlloc();
      if r < 0 { return; }
      WalkPde(mem, envs, tabs, pt, e, i);
      WindowLess(tlb, tlb, envs, owner, tabs, tabs[(e, i) := pp]);
      NewTableWalk(mem, ppRef, freeList, envs, tabs, pt, role, e, i, pp, Word(pp, NOFLAGS.(d := true, v := true)));
      NewTableRoles(ppRef, freeList, envs, tabs, pt, role, e, i, pp);
      mem := mem[pgdir := mem[pgdir][i := Word(pp, NOFLAGS.(d := true, v := true))]];
      ppRef := ppRef[pp := 1];
      role := role[pp := Table(e, i)];
      tabs := tabs[(e, i) := pp];
    }

    /** pgdir_walk: where the entry of `vpn` is, after making its table if `create` is set. */
    method PgdirWalk(pgdir: nat, vpn: nat, create: bool, ghost e: nat) returns (r: int, pte: PteAddr)
      requires Valid() && vpn < NVPN && e in envs && envs[e].pgdir == pgdir
      modifies this`mem, this`ppRef, this`freeList, this`role, this`tabs
      ensures Valid()
      ensures (e, Pdx(vpn)) in old(tabs) || !create || old(freeList) == [] ==>
        mem == old(mem) && ppRef == old(ppRef) && freeList == old(freeList) && role == old(role) && tabs == old(tabs)
      ensures (e, Pdx(vpn)) in old(tabs) ==> r == 0 && pte == Pte(old(tabs)[(e, Pdx(vpn))], Ptx(vpn))
      ensures (e, Pdx(vpn)) !in old(tabs) && !create ==> r == 0 && pte == NoPte
      ensures (e, Pdx(vpn)) !in old(tabs) && create && old(freeList) == [] ==> r == -E_NO_MEM
      ensures (e, Pdx(vpn)) !in old(tabs) && create && old(freeList) != [] ==>
        && r == 0 && pte == Pte(old(freeList)[0], Ptx(vpn)) && freeList == old(freeList)[1..]
        && tabs == old(tabs)[(e, Pdx(vpn)) := old(freeList)[0]]
        && old(freeList)[0] < npage && old(role)[old(freeList)[0]] == Free
        && role == old(role)[old(freeList)[0] := Table(e, Pdx(vpn))]
        && ppRef == old(ppRef)[old(freeList)[0] := 1]
      ensures SameData(old(mem), old(role)) && NoNewData(old(role), npage)
    {
      hide WalkOk, RolesOk, AsidsOk, TlbOk, WindowOk, NoDup;
      WalkPde(mem, envs, tabs, pt, e, Pdx(vpn));
      var pde := mem[pgdir][Pdx(vpn)];
      if !pde.lo.v && create {
        var pp;
        r, pp := NewTable(pgdir, Pdx(vpn), e);
        if r < 0 { return r, NoPte; }
        pte := Pte(pp, Ptx(vpn));
      } else if !pde.lo.v {
        pte := NoPte;
      } else {
        pte := Pte(pde.hi, Ptx(vpn));
      }
      r := 0;
    }

    /** No page that held user data, or was set aside for it, has changed its contents. */
    ghost predicate SameData(mem0: seq<Frame>, role0: seq<Role>)
      reads this
    { DataKept(mem0, role0, mem, role) }

    /** page_lookup: the page mapped at `vpn` and where its entry is; NoPte stands for NULL. */
    method PageLookup(pgdir: nat, vpn: nat, ghost e: nat) returns (pp: nat, pte: PteAddr)
      requires Valid() && vpn < NVPN && e in envs && envs[e].pgdir == pgdir
      ensures (e, vpn) !in pt ==> pte == NoPte
      ensures (e, vpn) in pt ==>
        pp == pt[(e, vpn)].hi && (e, Pdx(vpn)) in tabs && pte == Pte(tabs[(e, Pdx(vpn))], Ptx(vpn))
    {
      hide WalkOk, RolesOk, AsidsOk, TlbOk, WindowOk;
      WalkPde(mem, envs, tabs, pt, e, Pdx(vpn));
      WalkPte(mem, envs, tabs, pt, e, vpn);
      pp := 0;
      var pde := mem[pgdir][Pdx(vpn)];
      pte := if pde.lo.v then Pte(pde.hi, Ptx(vpn)) else NoPte;
      if pte == NoPte || !mem[pte.frame][pte.index].lo.v {
        return 0, NoPte;
      }
      pp := mem[pte.frame][pte.index].hi;
    }

    /** page_remove: unmaps `vpn`; a page without a mapping is left as it is. */
    method PageRemove(pgdir: nat, asid: nat, vpn: nat, ghost e: nat)
      requires Valid() && vpn < NVPN && e in envs && envs[e] == EnvVm(pgdir, asid)
      modifies this`mem, this`ppRef, this`freeList, this`tlb, this`pt, this`role
      ensures Valid()
      ensures pt == old(pt) - {(e, vpn)}
      ensures (e, vpn) !in old(pt) ==> ppRef == old(ppRef) && freeList == old(freeList) && role == old(role)
      ensures (e, vpn) in old(pt) ==> var p := old(pt)[(e, vpn)].hi;
        && p < npage && old(role)[p] == Data && ppRef == old(ppRef)[p := old(ppRef)[p] - 1]
        && (freeList == if old(ppRef)[p] == 1 then [p] + old(freeList) else old(freeList))
        && (role == if old(ppRef)[p] == 1 then old(role)[p := Free] else old(role))
      ensures tlb == old(tlb) - {(asid, vpn)}
      ensures SameData(old(mem), old(role)) && NoNewData(old(role), npage)
    {
      hide WalkOk, RolesOk, AsidsOk, TlbOk, WindowOk, DataKept, FewRoles;
      var pp, pte := PageLookup(pgdir, vpn, e);
      KeptSelf(mem, role);
      if pte == NoPte {
        NoEntryNoTlb(tlb, asidUsed, envs, owner, pt, e, vpn);
        return;
      }
      TlbAfterFlush(tlb, asidUsed, envs, owner, pt, e, vpn, ZERO);
      WindowLess(tlb, tlb - {(asid, vpn)}, envs, owner, tabs, tabs);
      RemoveKeeps(mem, ppRef, freeList, envs, tabs, pt, role, e, vpn);
      PageDecref(pp);
      mem := mem[pte.frame := mem[pte.frame][pte.index := ZERO]];
      pt := pt - {(e, vpn)};
      role := if ppRef[pp] == 0 then role[pp := Free] else role;
      TlbInvalidate(asid, vpn);
    }

    /** Steps 2 to 4 of page_insert, reached when nothing is mapped at `vpn`. */
    method PageInstall(pgdir: nat, asid: nat, pp: nat, vpn: nat, perm: Flags, ghost e: nat) returns (r: int)
      requires Valid() && vpn < NVPN && e in envs && envs[e] == EnvVm(pgdir, asid)
      requires pp < npage && (role[pp] == Data || role[pp] == Limbo) && (e, vpn) !in pt
      modifies this`mem, this`ppRef, this`freeList, this`tlb, this`pt, this`role, this`tabs
      ensures Valid()
      ensures r == 0 || r == -E_NO_MEM
      ensures r == 0 ==> pt == old(pt)[(e, vpn) := Word(pp, perm.(v := true))] && role[pp] == Data
      ensures r != 0 <==> (e, Pdx(vpn)) !in old(tabs) && old(freeList) == []
      ensures r != 0 ==> pt == old(pt) && ppRef == old(ppRef) && role == old(role) && mem == old(mem)
      ensures TableTaken(old(tabs), old(freeList), (e, Pdx(vpn)))
      ensures tlb == old(tlb) - {(asid, vpn)}
      ensures SameData(old(mem), old(role)) && NoNewData(old(role), pp)
    {
      hide WalkOk, RolesOk, AsidsOk, TlbOk, WindowOk, DataKept, FewRoles;
      var w := Word(pp, perm.(v := true));
      TlbAfterFlush(tlb, asidUsed, envs, owner, pt, e, vpn, w);
      WindowLess(tlb, tlb - {(asid, vpn)}, envs, owner, tabs, tabs);
      TlbInvalidate(asid, vpn);
      var pte: PteAddr;
      KeptWith(mem, role, pp);
      r, pte := PgdirWalk(pgdir, vpn, true, e);
      if r == -E_NO_MEM {
        return r;
      }
      ghost var mem1, role1 := mem, role;
      WritePte(pte, w, e, vpn);
      KeptBefore(old(mem), old(role), mem1, role1, mem, role, pp);
      r := 0;
    }

    /** Step 4 of page_insert: the entry is written and the page counted. */
    method WritePte(pte: PteAddr, w: Word, ghost e: nat, ghost vpn: nat)
      requires Valid() && vpn < NVPN && (e, Pdx(vpn)) in tabs && pte == Pte(tabs[(e, Pdx(vpn))], Ptx(vpn))
      requires w.lo.v && w.hi < npage && (role[w.hi] == Data || role[w.hi] == Limbo) && (e, vpn) !in pt
      requires e in envs && (envs[e].asid, vpn) !in tlb
      modifies this`mem, this`ppRef, this`pt, this`role
      ensures Valid()
      ensures pt == old(pt)[(e, vpn) := w] && role == old(role)[w.hi := Data]
      ensures SameData(old(mem), old(role)) && NoNewData(old(role), w.hi)
    {
      hide WalkOk, RolesOk, AsidsOk, TlbOk, WindowOk;
      TlbAfterFlush(tlb, asidUsed, envs, owner, pt, e, vpn, w);
      assert tlb - {(envs[e].asid, vpn)} == tlb;
      RoleOf(ppRef, freeList, envs, tabs, pt, role, e, vpn);
      WalkPte(mem, envs, tabs, pt, e, vpn);
      SetPteWalk(mem, ppRef, freeList, envs, tabs, pt, role, e, vpn, w);
      MapRoles(ppRef, freeList, envs, tabs, pt, role, (e, vpn), w);
      mem := mem[pte.frame := mem[pte.frame][pte.index := w]];
      ppRef := ppRef[w.hi := ppRef[w.hi] + 1];
      pt := pt[(e, vpn) := w];
      role := role[w.hi := Data];
    }

    /** The same page again: only the flags of its entry change. */
    method RewritePte(pte: PteAddr, w: Word, ghost e: nat, ghost vpn: nat)
      requires Valid() && vpn < NVPN && (e, vpn) in pt && pt[(e, vpn)].hi == w.hi && w.lo.v
      requires (e, Pdx(vpn)) in tabs && pte == Pte(tabs[(e, Pdx(vpn))], Ptx(vpn))
      requires e in envs && (envs[e].asid, vpn) !in tlb
      modifies this`mem, this`pt
      ensures Valid()
      ensures pt == old(pt)[(e, vpn) := w]
      ensures SameData(old(mem), old(role))
    {
      hide WalkOk, RolesOk, AsidsOk, TlbOk, WindowOk;
      TlbAfterFlush(tlb, asidUsed, envs, owner, pt, e, vpn, w);
      assert tlb - {(envs[e].asid, vpn)} == tlb;
      RoleOf(ppRef, freeList, envs, tabs, pt, role, e, vpn);
      WalkPte(mem, envs, tabs, pt, e, vpn);
      SetPteWalk(mem, ppRef, freeList, envs, tabs, pt, role, e, vpn, w);
      RemapRoles(ppRef, freeList, envs, tabs, pt, role, (e, vpn), w);
      mem := mem[pte.frame := mem[pte.frame][pte.index := w]];
      pt := pt[(e, vpn) := w];
    }

    /** The table of directory entry `k` is there, or has been made from the head of the free list if there was one. */
    ghost predicate TableTaken(tabs0: Tables, freeList0: seq<nat>, k: (nat, nat))
      reads this
    {
      if k in tabs0 || freeList0 == [] then tabs == tabs0 && freeList == freeList0
      else tabs == tabs0[k := freeList0[0]] && freeList == freeList0[1..]
    }

    /**
      page_insert: maps page `pp` at `vpn` in place of whatever was mapped there. It fails only when
      the table is missing and no page is free, and then changes no mapping and no count. Unless another page
      is replaced, the free list gives up a page exactly when a table is made.
     */
    method PageInsert(pgdir: nat, asid: nat, pp: nat, vpn: nat, perm: Flags, ghost e: nat) returns (r: int)
      requires Valid() && vpn < NVPN && e in envs && envs[e] == EnvVm(pgdir, asid)
      requires pp < npage && (role[pp] == Data || role[pp] == Limbo)
      modifies this`mem, this`ppRef, this`freeList, this`tlb, this`pt, this`role, this`tabs
      ensures Valid()
      ensures r == 0 || r == -E_NO_MEM
      ensures r == 0 ==> pt == old(pt)[(e, vpn) := Word(pp, perm.(v := true))] && role[pp] == Data
      ensures r != 0 <==> (e, Pdx(vpn)) !in old(tabs) && old(freeList) == []
      ensures r != 0 ==> pt == old(pt) && ppRef == old(ppRef) && role == old(role) && mem == old(mem)
      ensures (e, vpn) in old(pt) ==> (e, Pdx(vpn)) in old(tabs) && tabs == old(tabs)
      ensures tabs.Keys == old(tabs).Keys + if r == 0 then {(e, Pdx(vpn))} else {}
      ensures ((e, vpn) in old(pt) ==> old(pt)[(e, vpn)].hi == pp) ==>
        TableTaken(old(tabs), old(freeList), (e, Pdx(vpn)))
      ensures tlb == old(tlb) - {(asid, vpn)}
      ensures SameData(old(mem), old(role)) && NoNewData(old(role), pp)
    {
      hide WalkOk, RolesOk, AsidsOk, TlbOk, WindowOk;
      var pte: PteAddr;
      r, pte := PgdirWalk(pgdir, vpn, false, e);
      WalkPte(mem, envs, tabs, pt, e, vpn);
      if pte != NoPte && mem[pte.frame][pte.index].lo.v {
        if mem[pte.frame][pte.index].hi != pp {
          RemoveOther(pgdir, asid, pp, vpn, e);
        } else {
          RoleOf(ppRef, freeList, envs, tabs, pt, role, e, vpn);
          TlbInvalidateFor(asid, vpn, e);
          RewritePte(pte, Word(pp, perm.(v := true)), e, vpn);
          return 0;
        }
      }
      r := PageInstall(pgdir, asid, pp, vpn, perm, e);
    }

    /** page_remove, seen by page_insert: the page to be inserted stays what it was. */
    method RemoveOther(pgdir: nat, asid: nat, pp: nat, vpn: nat, ghost e: nat)
      requires Valid() && vpn < NVPN && e in envs && envs[e] == EnvVm(pgdir, asid)
      requires (e, vpn) in pt && pt[(e, vpn)].hi != pp
      modifies this`mem, this`ppRef, this`freeList, this`tlb, this`pt, this`role
      ensures Valid() && pt == old(pt) - {(e, vpn)} && tlb == old(tlb) - {(asid, vpn)}
      ensures |role| == |old(role)| && (pp < npage ==> role[pp] == old(role)[pp])
      ensures SameData(old(mem), old(role)) && NoNewData(old(role), pp)
    {
      hide WalkOk, RolesOk, AsidsOk, TlbOk, WindowOk;
      PageRemove(pgdir, asid, vpn, e);
    }

    /** tlb_invalidate for an entry of `e`: the TLB stays coherent. */
    method TlbInvalidateFor(asid: nat, vpn: nat, ghost e: nat)
      requires Valid() && e in envs && envs[e].asid == asid
      modifies this`tlb
      ensures Valid() && tlb == old(tlb) - {(asid, vpn)}
    {
      hide WalkOk, RolesOk, AsidsOk, TlbOk, WindowOk;
      TlbAfterFlush(tlb, asidUsed, envs, owner, pt, e, vpn, ZERO);
      WindowLess(tlb, tlb - {(asid, vpn)}, envs, owner, tabs, tabs);
      TlbInvalidate(asid, vpn);
    }

    ghost predicate NoNewData(role0: seq<Role>, pp: nat)
      reads this
    { FewRoles(role0, role, pp) }
  }
}
