/** Reference counts and conservation of pages. */
module Counts {
  // What the invariant of kern/pmap.c says about reference counts, about the free list and about address translation.

  import opened Mmu
  import opened Pmap

  /** Everything that refers to page `p`: user entries, directory entries and environments. */
  ghost function References(envs: map<nat, EnvVm>, tabs: Tables, pt: PageTable, p: nat): nat {
    |UserRefs(pt, p)| + |TableRefs(tabs, p)| + |DirRefs(envs, p)|
  }

  /** What a page is counted for without being named: a boot page, and a directory that env_alloc left behind. */
  function Surplus(use: Role): nat { if use == Boot || use == Spare then 1 else 0 }

  /**
    `pp_ref` of every page is the number of references to it, and one more for a boot page and for a directory
    that env_alloc set up and left behind when it found no ASID.
   */
  lemma RefCountsExact(ppRef: seq<nat>, freeList: seq<nat>, envs: map<nat, EnvVm>, tabs: Tables, pt: PageTable,
                       role: seq<Role>, p: nat)
    requires RolesOk(ppRef, freeList, envs, tabs, pt, role)
    requires p < |role|
    ensures ppRef[p] == References(envs, tabs, pt, p) + Surplus(role[p])
  {
    assert CountOk(p, ppRef[p], envs, tabs, pt, role[p]);
    UserOnly(freeList, envs, tabs, pt, role, p);
    TableOnly(envs, tabs, pt, role, p);
    DirOnly(envs, tabs, pt, role, p);
  }

  lemma UserOnly(freeList: seq<nat>, envs: map<nat, EnvVm>, tabs: Tables, pt: PageTable, role: seq<Role>, p: nat)
    requires UsesOk(envs, tabs, pt, role) && p < |role|
    ensures role[p] != Data ==> UserRefs(pt, p) == {}
  {
    if role[p] != Data {
      forall k | k in pt ensures pt[k].hi != p {
        assert k == (k.0, k.1) && role[pt[(k.0, k.1)].hi] == Data;
      }
    }
  }

  lemma TableOnly(envs: map<nat, EnvVm>, tabs: Tables, pt: PageTable, role: seq<Role>, p: nat)
    requires UsesOk(envs, tabs, pt, role) && p < |role|
    requires role[p].Table? ==> (role[p].env, role[p].pdx) in tabs && tabs[(role[p].env, role[p].pdx)] == p
    ensures TableRefs(tabs, p) == if role[p].Table? then {(role[p].env, role[p].pdx)} else {}
  {
    forall k | k in tabs && tabs[k] == p ensures role[p] == Table(k.0, k.1) {
      assert k == (k.0, k.1) && role[tabs[(k.0, k.1)]] == Table(k.0, k.1);
    }
    if role[p].Table? {
      forall k | k in TableRefs(tabs, p) ensures k == (role[p].env, role[p].pdx) {
        assert k == (k.0, k.1);
      }
    }
  }

  lemma DirOnly(envs: map<nat, EnvVm>, tabs: Tables, pt: PageTable, role: seq<Role>, p: nat)
    requires UsesOk(envs, tabs, pt, role) && p < |role|
    requires role[p].Dir? ==> role[p].env in envs && envs[role[p].env].pgdir == p
    ensures DirRefs(envs, p) == if role[p].Dir? then {role[p].env} else {}
  {
    forall e | e in envs && envs[e].pgdir == p ensures role[p] == Dir(e) {
      assert role[envs[e].pgdir] == Dir(e);
    }
  }

  /** Free pages are listed once, counted zero and referred to by nothing; no page in use is listed. */
  lemma FreePagesUnreferenced(ppRef: seq<nat>, freeList: seq<nat>, envs: map<nat, EnvVm>, tabs: Tables, pt: PageTable,
                              role: seq<Role>, p: nat)
    requires RolesOk(ppRef, freeList, envs, tabs, pt, role)
    ensures p in freeList ==> p < |role| && ppRef[p] == 0 && References(envs, tabs, pt, p) == 0
    ensures p < |role| && role[p] != Boot && References(envs, tabs, pt, p) == 0 ==>
      p in freeList || role[p] == Limbo || role[p] == Spare
    ensures forall i, j :: 0 <= i < |freeList| && 0 <= j < |freeList| && freeList[i] == freeList[j] ==> i == j
  {
    if p < |role| && role[p] != Boot {
      RefCountsExact(ppRef, freeList, envs, tabs, pt, role, p);
      assert CountOk(p, ppRef[p], envs, tabs, pt, role[p]);
    }
    assert forall i, j :: 0 <= i < |freeList| && 0 <= j < |freeList| && i < j ==> freeList[i] != freeList[j];
  }

  // ---- what freeing a table or an environment gives back ----

  ghost function Of(refs: set<(nat, nat)>, e: nat): set<(nat, nat)> {
    set k | k in refs && k.0 == e
  }

  /** The references the environment `e` alone holds to page `p`. */
  ghost function HeldBy(envs: map<nat, EnvVm>, tabs: Tables, pt: PageTable, e: nat, p: nat): nat {
    |Of(UserRefs(pt, p), e)| + |Of(TableRefs(tabs, p), e)| + |DirRefs(envs, p) * {e}|
  }

  /** Dropping an environment's mappings, tables and directory releases exactly the references it held. */
  lemma ReleasedExactly(envs: map<nat, EnvVm>, tabs: Tables, pt: PageTable, e: nat, p: nat)
    ensures References(envs - {e}, OthersTabs(tabs, e), OthersPt(pt, e), p)
      == References(envs, tabs, pt, p) - HeldBy(envs, tabs, pt, e, p)
  {
    ReleasedUser(pt, e, p);
    ReleasedTables(tabs, e, p);
    var d := DirRefs(envs, p);
    assert DirRefs(envs - {e}, p) + d * {e} == d;
  }

  lemma ReleasedUser(pt: PageTable, e: nat, p: nat)
    ensures |UserRefs(pt, p)|
      == |UserRefs(OthersPt(pt, e), p)| + |Of(UserRefs(pt, p), e)|
  {
    var u := UserRefs(pt, p);
    var rest, mine := UserRefs(OthersPt(pt, e), p), Of(u, e);
    assert rest + mine == u && rest !! mine;
  }

  lemma ReleasedTables(tabs: Tables, e: nat, p: nat)
    ensures |TableRefs(tabs, p)|
      == |TableRefs(OthersTabs(tabs, e), p)| + |Of(TableRefs(tabs, p), e)|
  {
    var u := TableRefs(tabs, p);
    var rest, mine := TableRefs(OthersTabs(tabs, e), p), Of(u, e);
    assert rest + mine == u && rest !! mine;
  }

  /** The references that directory entry `i` of `e` and the entries under it hold to page `p`. */
  ghost function HeldUnder(tabs: Tables, pt: PageTable, e: nat, i: nat, p: nat): nat {
    |Under(UserRefs(pt, p), e, i)| + |TableRefs(tabs, p) * {(e, i)}|
  }

  ghost function Under(refs: set<(nat, nat)>, e: nat, i: nat): set<(nat, nat)> {
    set k | k in refs && k.0 == e && Pdx(k.1) == i
  }

  lemma UserUnder(pt: PageTable, pt': PageTable, e: nat, i: nat, p: nat)
    requires pt' == map k | k in pt && !(k.0 == e && Pdx(k.1) == i) :: pt[k]
    ensures |UserRefs(pt, p)| == |UserRefs(pt', p)| + |Under(UserRefs(pt, p), e, i)|
  {
    var rest, mine := UserRefs(pt', p), Under(UserRefs(pt, p), e, i);
    assert rest + mine == UserRefs(pt, p) && rest !! mine;
  }

  lemma ReleasedUnder(envs: map<nat, EnvVm>, tabs: Tables, pt: PageTable, pt': PageTable, e: nat, i: nat, p: nat)
    requires pt' == map k | k in pt && !(k.0 == e && Pdx(k.1) == i) :: pt[k]
    ensures References(envs, tabs - {(e, i)}, pt', p) == References(envs, tabs, pt, p) - HeldUnder(tabs, pt, e, i, p)
  {
    UserUnder(pt, pt', e, i, p);
    hide UserRefs, Under, DirRefs;
    var t := TableRefs(tabs, p);
    assert TableRefs(tabs - {(e, i)}, p) + t * {(e, i)} == t;
  }

  /**
    Each page has `held(p)` references less than before and is counted that much less, and the pages whose count
    has reached zero, these and no others, have joined the free list.
   */
  ghost predicate GivenBack(ppRef0: seq<nat>, freeList0: seq<nat>, ppRef: seq<nat>, freeList: seq<nat>,
                            held: nat -> nat)
  {
    && |ppRef| == |ppRef0|
    && (forall p: nat {:trigger ppRef[p]} :: p < |ppRef| ==> ppRef[p] == ppRef0[p] - held(p))
    && forall p: nat {:trigger p in freeList} ::
         p in freeList <==> p in freeList0 || (p < |ppRef| && ppRef0[p] > 0 && ppRef[p] == 0)
  }

  /** Whatever drops references and takes none, and sets no page aside, gives back exactly what it dropped. */
  lemma GivesBack(ppRef0: seq<nat>, freeList0: seq<nat>, envs0: map<nat, EnvVm>, tabs0: Tables, pt0: PageTable,
                  role0: seq<Role>, ppRef: seq<nat>, freeList: seq<nat>, envs: map<nat, EnvVm>, tabs: Tables,
                  pt: PageTable, role: seq<Role>, held: nat -> nat)
    requires RolesOk(ppRef0, freeList0, envs0, tabs0, pt0, role0) && RolesOk(ppRef, freeList, envs, tabs, pt, role)
    requires FewRoles(role0, role, |role|)
    requires forall p: nat :: References(envs, tabs, pt, p) == References(envs0, tabs0, pt0, p) - held(p)
    ensures GivenBack(ppRef0, freeList0, ppRef, freeList, held)
  {
    forall p: nat | p < |role|
      ensures ppRef[p] == ppRef0[p] - held(p)
      ensures p in freeList <==> p in freeList0 || (ppRef0[p] > 0 && ppRef[p] == 0)
    {
      GivesBackOne(ppRef0, freeList0, envs0, tabs0, pt0, role0, ppRef, freeList, envs, tabs, pt, role, held, p);
    }
  }

  lemma GivesBackOne(ppRef0: seq<nat>, freeList0: seq<nat>, envs0: map<nat, EnvVm>, tabs0: Tables, pt0: PageTable,
                     role0: seq<Role>, ppRef: seq<nat>, freeList: seq<nat>, envs: map<nat, EnvVm>, tabs: Tables,
                     pt: PageTable, role: seq<Role>, held: nat -> nat, p: nat)
    requires RolesOk(ppRef0, freeList0, envs0, tabs0, pt0, role0) && RolesOk(ppRef, freeList, envs, tabs, pt, role)
    requires FewRoles(role0, role, |role|) && p < |role|
    requires References(envs, tabs, pt, p) == References(envs0, tabs0, pt0, p) - held(p)
    ensures ppRef[p] == ppRef0[p] - held(p)
    ensures p in freeList <==> p in freeList0 || (ppRef0[p] > 0 && ppRef[p] == 0)
  {
    RefCountsExact(ppRef0, freeList0, envs0, tabs0, pt0, role0, p);
    RefCountsExact(ppRef, freeList, envs, tabs, pt, role, p);
    hide References;
    assert CountOk(p, ppRef0[p], envs0, tabs0, pt0, role0[p]) && CountOk(p, ppRef[p], envs, tabs, pt, role[p]);
  }

  // ---- conservation of pages ----

  /** The pages that user entries name. */
  ghost function PagesOf(pt: PageTable): set<nat> { set k | k in pt :: pt[k].hi }

  /** The pages with a role that meets `f`. */
  ghost function With(role: seq<Role>, f: Role -> bool): set<nat> { set p: nat | p < |role| && f(role[p]) }

  predicate IsBoot(use: Role) { use == Boot }
  predicate IsFree(use: Role) { use == Free }
  predicate IsData(use: Role) { use == Data }
  predicate IsTable(use: Role) { use.Table? }
  predicate IsDir(use: Role) { use.Dir? }
  predicate IsLost(use: Role) { use == Limbo || use == Spare }

  ghost function BootPages(role: seq<Role>): set<nat> { With(role, IsBoot) }
  ghost function FreePages(role: seq<Role>): set<nat> { With(role, IsFree) }
  ghost function DataPages(role: seq<Role>): set<nat> { With(role, IsData) }
  ghost function TablePages(role: seq<Role>): set<nat> { With(role, IsTable) }
  ghost function DirPages(role: seq<Role>): set<nat> { With(role, IsDir) }
  ghost function LostPages(role: seq<Role>): set<nat> { With(role, IsLost) }

  /**
    Every page is in one place: on the free list, under user entries, a table, a directory, lost, or kept by boot.
   */
  lemma PagesConserved(ppRef: seq<nat>, freeList: seq<nat>, envs: map<nat, EnvVm>, tabs: Tables, pt: PageTable,
                       role: seq<Role>)
    requires RolesOk(ppRef, freeList, envs, tabs, pt, role)
    ensures |freeList| + |PagesOf(pt)| + |tabs| + |envs| + |Lost(role)| + |BootPages(role)| == |role|
  {
    FreeSize(freeList, role);
    DataAre(ppRef, freeList, envs, tabs, pt, role);
    TablesSize(ppRef, freeList, envs, tabs, pt, role);
    DirsSize(ppRef, freeList, envs, tabs, pt, role);
    UsesSize(role, IsFree, IsData, IsTable, IsDir, IsLost, IsBoot);
    assert LostPages(role) == Lost(role);
  }

  /** Six uses that exclude each other and leave none out. */
  lemma {:induction false} UsesSize(role: seq<Role>, a: Role -> bool, b: Role -> bool, c: Role -> bool,
                                    d: Role -> bool, e: Role -> bool, f: Role -> bool)
    requires forall u :: One(a(u)) + One(b(u)) + One(c(u)) + One(d(u)) + One(e(u)) + One(f(u)) == 1
    ensures |With(role, a)| + |With(role, b)| + |With(role, c)| + |With(role, d)| + |With(role, e)|
      + |With(role, f)| == |role|
  {
    if role != [] {
      UsesSize(role[..|role| - 1], a, b, c, d, e, f);
      LastUse(role, a);
      LastUse(role, b);
      LastUse(role, c);
      LastUse(role, d);
      LastUse(role, e);
      LastUse(role, f);
      hide *;
    }
  }

  function One(b: bool): nat { if b then 1 else 0 }

  lemma LastUse(role: seq<Role>, f: Role -> bool)
    requires role != []
    ensures |With(role, f)| == |With(role[..|role| - 1], f)| + One(f(role[|role| - 1]))
  {
    var n := |role| - 1;
    assert With(role, f) == With(role[..n], f) + if f(role[n]) then {n} else {};
  }

  function Below(n: nat): (r: set<nat>)
    ensures |r| == n && forall p: nat :: p in r <==> p < n
  {
    if n == 0 then {} else Below(n - 1) + {n - 1}
  }

  /** A set of numbers below n has fewer than n exactly when one is missing. */
  lemma RoomBelow(s: set<nat>, n: nat)
    requires forall p: nat :: p in s ==> p < n
    ensures |s| < n <==> exists p: nat :: p < n && p !in s
  {
    var all := Below(n);
    assert all == s + (all - s);
    if p: nat :| p < n && p !in s {
      assert p in all - s;
    } else {
      assert all == s;
    }
  }

  lemma SubsetSize<T>(a: set<T>, b: set<T>)
    requires a <= b
    ensures |a| <= |b|
  {
    assert b == a + (b - a);
  }

  function Elements(s: seq<nat>): set<nat> { set p | p in s }

  lemma {:induction false} ElementsSize(s: seq<nat>)
    requires NoDup(s)
    ensures |Elements(s)| == |s|
  {
    if s != [] {
      var t, x := s[..|s| - 1], s[|s| - 1];
      assert s == t + [x];
      ElementsSize(t);
      assert Elements(s) == Elements(t) + {x};
      assert x !in Elements(t);
    }
  }

  lemma FreeSize(freeList: seq<nat>, role: seq<Role>)
    requires FreeOk(freeList, role)
    ensures |FreePages(role)| == |freeList|
  {
    ElementsSize(freeList);
    assert Elements(freeList) == FreePages(role);
  }

  lemma DataAre(ppRef: seq<nat>, freeList: seq<nat>, envs: map<nat, EnvVm>, tabs: Tables, pt: PageTable,
                role: seq<Role>)
    requires RolesOk(ppRef, freeList, envs, tabs, pt, role)
    ensures PagesOf(pt) == DataPages(role)
  {
    forall p: nat ensures p in PagesOf(pt) <==> p in DataPages(role) {
      if p in DataPages(role) {
        assert CountOk(p, ppRef[p], envs, tabs, pt, role[p]);
        assert UserRefs(pt, p) != {};
        var k :| k in UserRefs(pt, p);
        assert k in pt && pt[k].hi == p;
      }
      if p in PagesOf(pt) {
        var k :| k in pt && pt[k].hi == p;
        assert k == (k.0, k.1) && (k.0, k.1) in pt;
      }
    }
  }

  /** As many pages as keys, when `back` says which page belongs to which key. */
  lemma {:induction false} OneEach<K>(m: map<K, nat>, back: map<nat, K>)
    requires forall k :: k in m ==> m[k] in back && back[m[k]] == k
    requires forall p :: p in back ==> back[p] in m && m[back[p]] == p
    ensures |back.Keys| == |m|
  {
    if k :| k in m {
      OneEach(m - {k}, back - {m[k]});
      assert (back - {m[k]}).Keys + {m[k]} == back.Keys;
      assert |m - {k}| + 1 == |m|;
    } else {
      assert back.Keys == {};
    }
  }

  lemma TablesSize(ppRef: seq<nat>, freeList: seq<nat>, envs: map<nat, EnvVm>, tabs: Tables, pt: PageTable,
                   role: seq<Role>)
    requires RolesOk(ppRef, freeList, envs, tabs, pt, role)
    ensures |TablePages(role)| == |tabs|
  {
    var back := map p | p in TablePages(role) :: (role[p].env, role[p].pdx);
    forall p | p in back ensures back[p] in tabs && tabs[back[p]] == p {
      assert CountOk(p, ppRef[p], envs, tabs, pt, role[p]);
    }
    forall k | k in tabs ensures tabs[k] in back && back[tabs[k]] == k {
      assert k == (k.0, k.1) && role[tabs[(k.0, k.1)]] == Table(k.0, k.1);
    }
    OneEach(tabs, back);
    assert back.Keys == TablePages(role);
  }

  lemma CountAt(ppRef: seq<nat>, freeList: seq<nat>, envs: map<nat, EnvVm>, tabs: Tables, pt: PageTable,
                role: seq<Role>, p: nat)
    requires RolesOk(ppRef, freeList, envs, tabs, pt, role) && p < |role|
    ensures p < |ppRef| && CountOk(p, ppRef[p], envs, tabs, pt, role[p])
  {}

  lemma DirsSize(ppRef: seq<nat>, freeList: seq<nat>, envs: map<nat, EnvVm>, tabs: Tables, pt: PageTable,
                 role: seq<Role>)
    requires RolesOk(ppRef, freeList, envs, tabs, pt, role)
    ensures |DirPages(role)| == |envs|
  {
    var dirs := map e | e in envs :: envs[e].pgdir;
    var back := map p | p in DirPages(role) :: role[p].env;
    hide RolesOk, WalkOk;
    forall p | p in back ensures back[p] in dirs && dirs[back[p]] == p {
      CountAt(ppRef, freeList, envs, tabs, pt, role, p);
    }
    forall e | e in dirs ensures dirs[e] in back && back[dirs[e]] == e {
      RoleOf(ppRef, freeList, envs, tabs, pt, role, e, 0);
    }
    assert back.Keys == DirPages(role) && dirs.Keys == envs.Keys;
    hide *;
    OneEach(dirs, back);
    assert |dirs.Keys| == |dirs| && |envs.Keys| == |envs|;
  }

  // ---- address arithmetic and the reference walk (include/pmap.h) ----

  function Page2Pa(ppn: nat): nat { ppn * BY2PG }

  /** pa2page: panics for a page beyond the end of memory. */
  function Pa2Page(pa: nat, npage: nat): (p: int)
    ensures p == -1 <==> pa / BY2PG >= npage
  {
    if pa / BY2PG >= npage then -1 else pa / BY2PG
  }

  lemma PageRoundTrip(ppn: nat, npage: nat, off: nat)
    requires ppn < npage && off < BY2PG
    ensures Pa2Page(Page2Pa(ppn) + off, npage) == ppn
  {
  }

  /** va2pa: ~0 when the directory entry or the table entry is not valid. */
  function Va2Pa(mem: seq<Frame>, pgdir: nat, va: nat): int
    requires pgdir < |mem| && va < UTOP
  {
    var pde := mem[pgdir][Pdx(Vpn(va))];
    if !pde.lo.v || pde.hi >= |mem| then -1
    else
      var pte := mem[pde.hi][Ptx(Vpn(va))];
      if !pte.lo.v then -1 else Page2Pa(pte.hi)
  }

  /** The two-level walk of an environment's directory is a lookup in the flat table. */
  lemma Va2PaIsLookup(mem: seq<Frame>, envs: map<nat, EnvVm>, tabs: Tables, pt: PageTable, e: nat, va: nat)
    requires WalkOk(mem, envs, tabs, pt) && e in envs && va < UTOP
    ensures envs[e].pgdir < |mem|
    ensures Va2Pa(mem, envs[e].pgdir, va) == if (e, Vpn(va)) in pt then Page2Pa(pt[(e, Vpn(va))].hi) else -1
  {
    WalkPde(mem, envs, tabs, pt, e, Pdx(Vpn(va)));
    WalkPte(mem, envs, tabs, pt, e, Vpn(va));
  }
}
