/** Whole runs of the machine, from boot on. */
module VmRun {
  // Every load, store, memory system call, fork, fault and exit that the kernel and the library carry out is a run
  // of the copy-on-write machine, hence of the machine that copies at fork.

  import opened Mmu
  import opened Pmap
  import opened Tlb
  import opened EnvVmm
  import opened SyscallMem
  import opened ForkLib
  import opened Counts
  import Cow

  // ---- pieces of runs ----

  datatype Trace = Trace(states: seq<Cow.Lazy>, acts: seq<Cow.Act>)

  /** A run of the copy-on-write machine from s to s'. */
  ghost predicate Path(t: Trace, s: Cow.Lazy, s': Cow.Lazy) {
    |t.states| == |t.acts| + 1 && Cow.Run(t.states, t.acts) && t.states[0] == s && t.states[|t.acts|] == s'
  }

  function Join(t: Trace, u: Trace): Trace
    requires u.states != []
  { Trace(t.states + u.states[1..], t.acts + u.acts) }

  lemma Joined(t: Trace, u: Trace, s: Cow.Lazy, s1: Cow.Lazy, s2: Cow.Lazy)
    requires Path(t, s, s1) && Path(u, s1, s2)
    ensures Path(Join(t, u), s, s2)
  {
    var j := Join(t, u);
    hide Cow.Step;
    forall i | 0 <= i < |j.acts| ensures Cow.Step(j.states[i], j.states[i + 1], j.acts[i]) {
      if i < |t.acts| {
        assert Cow.Step(t.states[i], t.states[i + 1], t.acts[i]);
      } else {
        var k := i - |t.acts|;
        assert Cow.Step(u.states[k], u.states[k + 1], u.acts[k]);
        assert j.states[i] == u.states[k];
      }
    }
  }

  function Stay(s: Cow.Lazy): Trace { Trace([s], []) }

  function One(s: Cow.Lazy, a: Cow.Act, s': Cow.Lazy): Trace { Trace([s, s'], [a]) }

  lemma OnePath(s: Cow.Lazy, a: Cow.Act, s': Cow.Lazy)
    requires Cow.Step(s, s', a)
    ensures Path(One(s, a, s'), s, s')
  {
    hide Cow.Step;
  }

  function Two(s: Cow.Lazy, a: Cow.Act, s1: Cow.Lazy, b: Cow.Act, s2: Cow.Lazy): Trace { Trace([s, s1, s2], [a, b]) }

  lemma TwoPath(s: Cow.Lazy, a: Cow.Act, s1: Cow.Lazy, b: Cow.Act, s2: Cow.Lazy)
    requires Cow.Step(s, s1, a) && Cow.Step(s1, s2, b)
    ensures Path(Two(s, a, s1, b, s2), s, s2)
  {
    hide Cow.Step;
  }

  // ---- the handler as a run ----

  /** What cow_entry does as a whole, in terms of the tables and the memory. */
  ghost predicate Handled(s: Cow.Lazy, s': Cow.Lazy, e: int, v: int, p: int) {
    && s.phase == s'.phase == map[] && |s.mem| == |s'.mem| && 0 <= p < |s.mem| && p < 0x10_0000
    && (e, v) in s.pt && s.pt[(e, v)].hi < |s.mem| && s.pt[(e, v)].lo.cow && Cow.UserVpn(v) && (e, UCOW_VPN) !in s.pt
    && !Cow.Used(s.pt, p) && Cow.Keep(s, s') && s'.mem[p] == s.mem[s.pt[(e, v)].hi]
    && s'.pt == s.pt[(e, v) := Word(p, s.pt[(e, v)].lo.(cow := false, d := true))]
  }

  /** The handler with `n` words copied. */
  function Mid(s: Cow.Lazy, e: int, v: int, p: int, n: int): Cow.Lazy
    requires 0 <= n <= NPTE && 0 <= p < |s.mem| && p < 0x10_0000 && (e, v) in s.pt && s.pt[(e, v)].hi < |s.mem|
  {
    Cow.Lazy(s.pt[(e, UCOW_VPN) := Word(p, s.pt[(e, v)].lo.(cow := false, d := true))],
             s.mem[p := s.mem[s.pt[(e, v)].hi][..n] + ZeroFrame()[n..]], map[e := Cow.Copying(v, n)])
  }

  lemma MidStart(s: Cow.Lazy, s': Cow.Lazy, e: int, v: int, p: int)
    requires Handled(s, s', e, v, p)
    ensures Cow.Step(s, Mid(s, e, v, p, 0), Cow.FaultAlloc(e, v))
  {
    var m := Mid(s, e, v, p, 0);
    assert s.mem[s.pt[(e, v)].hi][..0] + ZeroFrame()[0..] == ZeroFrame();
    assert Cow.Keep(s, m);
    assert !Cow.Used(s.pt, p) && Cow.FreshPage(s, m, (e, UCOW_VPN), s.pt[(e, v)].lo.(cow := false, d := true));
  }

  lemma MidNext(s: Cow.Lazy, s': Cow.Lazy, e: int, v: int, p: int, n: int)
    requires Handled(s, s', e, v, p) && 0 <= n < NPTE
    ensures Cow.Step(Mid(s, e, v, p, n), Mid(s, e, v, p, n + 1), Cow.FaultCopy(e))
  {
    var q := s.pt[(e, v)].hi;
    assert p != q by { assert Cow.Used(s.pt, q); }
    var f, g := s.mem[q][..n] + ZeroFrame()[n..], s.mem[q][..n + 1] + ZeroFrame()[n + 1..];
    assert g == f[n := s.mem[q][n]];
  }

  /** The copy mapped at the faulting page, UCOW still mapped. */
  function After(s: Cow.Lazy, s': Cow.Lazy, e: int, v: int, p: int): Cow.Lazy
    requires 0 <= p < 0x10_0000 && (e, v) in s.pt
  {
    var w := Word(p, s.pt[(e, v)].lo.(cow := false, d := true));
    Cow.Lazy(s.pt[(e, UCOW_VPN) := w][(e, v) := w], s'.mem, map[e := Cow.Remapped(v)])
  }

  lemma MidEnd(s: Cow.Lazy, s': Cow.Lazy, e: int, v: int, p: int)
    requires Handled(s, s', e, v, p)
    ensures Cow.Step(Mid(s, e, v, p, NPTE), After(s, s', e, v, p), Cow.FaultMap(e))
    ensures Cow.Step(After(s, s', e, v, p), s', Cow.FaultUnmap(e))
  {
    var m, a := Mid(s, e, v, p, NPTE), After(s, s', e, v, p);
    var q := s.pt[(e, v)].hi;
    assert m.mem[p] == s.mem[q] by { assert s.mem[q][..NPTE] + ZeroFrame()[NPTE..] == s.mem[q]; }
    forall x | 0 <= x < |m.mem| && Cow.Used(m.pt, x) && Cow.Used(a.pt, x) ensures a.mem[x] == m.mem[x] {
      if x != p {
        var k :| k in a.pt && a.pt[k].hi == x;
        assert k in s.pt && s.pt[k].hi == x && k in s'.pt && s'.pt[k].hi == x;
        assert Cow.Used(s.pt, x) && Cow.Used(s'.pt, x);
      }
    }
    assert a.pt - {(e, UCOW_VPN)} == s'.pt;
  }

  /** The handler's steps. */
  function HandlerActs(e: int, v: int): seq<Cow.Act> {
    [Cow.FaultAlloc(e, v)] + seq(NPTE, n => Cow.FaultCopy(e)) + [Cow.FaultMap(e), Cow.FaultUnmap(e)]
  }

  function HandlerTrace(s: Cow.Lazy, s': Cow.Lazy, e: int, v: int, p: int): Trace
    requires 0 <= p < |s.mem| && p < 0x10_0000 && (e, v) in s.pt && s.pt[(e, v)].hi < |s.mem|
  {
    Trace([s] + seq(NPTE + 1, n requires 0 <= n <= NPTE => Mid(s, e, v, p, n)) + [After(s, s', e, v, p), s'],
          HandlerActs(e, v))
  }

  /** Which state and which step is where. */
  lemma HandlerAt(s: Cow.Lazy, s': Cow.Lazy, e: int, v: int, p: int, i: nat)
    requires 0 <= p < |s.mem| && p < 0x10_0000 && (e, v) in s.pt && s.pt[(e, v)].hi < |s.mem| && i < NPTE + 3
    ensures var t := HandlerTrace(s, s', e, v, p);
      && |t.states| == NPTE + 4 && |t.acts| == NPTE + 3
      && t.states[i] == (if i == 0 then s else if i <= NPTE + 1 then Mid(s, e, v, p, i - 1) else After(s, s', e, v, p))
      && t.states[i + 1] ==
           (if i <= NPTE then Mid(s, e, v, p, i) else if i == NPTE + 1 then After(s, s', e, v, p) else s')
      && t.acts[i] == (if i == 0 then Cow.FaultAlloc(e, v) else if i <= NPTE then Cow.FaultCopy(e)
                       else if i == NPTE + 1 then Cow.FaultMap(e) else Cow.FaultUnmap(e))
  {
    hide Mid, After;
  }

  lemma HandlerStep(s: Cow.Lazy, s': Cow.Lazy, e: int, v: int, p: int, i: nat)
    requires Handled(s, s', e, v, p) && i < NPTE + 3
    ensures var t := HandlerTrace(s, s', e, v, p);
      && |t.states| == NPTE + 4 && |t.acts| == NPTE + 3
      && Cow.Step(t.states[i], t.states[i + 1], t.acts[i])
  {
    hide Cow.Step, Mid, After, HandlerTrace;
    HandlerAt(s, s', e, v, p, i);
    if i == 0 {
      MidStart(s, s', e, v, p);
    } else if i <= NPTE {
      MidNext(s, s', e, v, p, i - 1);
    } else {
      MidEnd(s, s', e, v, p);
    }
  }

  /** The whole handler is a run: one page taken, 1024 words copied, remapped, unmapped. */
  lemma HandlerPath(s: Cow.Lazy, s': Cow.Lazy, e: int, v: int, p: int)
    requires Handled(s, s', e, v, p)
    ensures Path(HandlerTrace(s, s', e, v, p), s, s')
  {
    var t := HandlerTrace(s, s', e, v, p);
    HandlerAt(s, s', e, v, p, 0);
    HandlerAt(s, s', e, v, p, NPTE + 2);
    hide Cow.Step, Mid, After, HandlerTrace;
    forall i | 0 <= i < |t.acts| ensures Cow.Step(t.states[i], t.states[i + 1], t.acts[i]) {
      HandlerStep(s, s', e, v, p, i);
    }
  }

  // ---- one operation ----

  datatype Op =
    | OpLoad(e: nat, va: nat, evict: set<(nat, nat)>)
    | OpStore(e: nat, va: nat, w: Word, evict: set<(nat, nat)>)
    | OpAlloc(e: nat, va: nat, perm: Flags)
    | OpShare(e: nat, va: nat, e2: nat, va2: nat, perm: Flags)
    | OpUnmap(e: nat, va: nat)
    | OpFork(e: nat, child: nat, base: nat)
    | OpExit(e: nat)

  // The word of a load; the result of a call. Stopped: see Stops.
  datatype Outcome = Value(w: Word) | Code(r: int) | Stopped

  const DEMAND: Flags := NOFLAGS.(d := true, v := true)

  /** What paging does before an access: nothing, a page on first touch, or the whole of cow_entry before a store. */
  function Paging(pt: map<Cow.Key, Word>, e: nat, v: nat, store: bool): seq<Cow.Act> {
    if (e, v) !in pt then [Cow.Alloc(e, v, DEMAND)]
    else if store && !pt[(e, v)].lo.d then HandlerActs(e, v)
    else []
  }

  /** The operation's own step, with its value; a call that returned an error has none. */
  function Own(op: Op, r: Outcome): Cow.Act
    requires op.OpLoad? ==> r.Value?
  {
    match op
    case OpLoad(e, va, _) => Cow.Read(e, Vpn(va), Offset(va), r.w)
    case OpStore(e, va, w, _) => Cow.Write(e, Vpn(va), Offset(va), w)
    case OpFork(e, child, _) => Cow.Act.Fork(e, child)
    case OpExit(e) => Cow.Exit(e)
    case OpAlloc(e, va, perm) => if r == Code(0) then Cow.Alloc(e, Vpn(va), perm.(v := true)) else Cow.Skip
    case OpShare(e, va, e2, va2, perm) =>
      if r == Code(0) then Cow.Share(e, Vpn(va), e2, Vpn(va2), perm.(v := true)) else Cow.Skip
    case OpUnmap(e, va) => if r == Code(0) then Cow.Unmap(e, Vpn(va)) else Cow.Skip
  }

  /** All steps of an operation begun with the tables `pt`. */
  function Segment(pt: map<Cow.Key, Word>, op: Op, r: Outcome): seq<Cow.Act>
    requires op.OpLoad? ==> r.Value?
  {
    match op
    case OpLoad(e, va, _) => Paging(pt, e, Vpn(va), false) + [Own(op, r)]
    case OpStore(e, va, _, _) => Paging(pt, e, Vpn(va), true) + [Own(op, r)]
    case _ => [Own(op, r)]
  }

  // What outcomes depend on, besides contents: how many pages are free, the tables there are, the environments, each
  // with an ASID of its own, how many pages are lost, and the flat table.
  datatype Memory = Memory(free: nat, tables: set<(nat, nat)>, envs: set<nat>, lost: nat, pt: PageTable)

  ghost function Summary(freeList: seq<nat>, envs: map<nat, EnvVm>, tabs: Tables, pt: PageTable,
                         role: seq<Role>): Memory
  {
    Memory(|freeList|, tabs.Keys, envs.Keys, |Lost(role)|, pt)
  }

  ghost function MemoryOf(m: Machine): Memory
    reads m
  { Summary(m.freeList, m.envs, m.tabs, m.pt, m.role) }

  /** All pages that boot did not keep: free, mapped, tables, directories and lost. */
  ghost function Total(s: Memory): nat {
    s.free + |PagesOf(s.pt)| + |s.tables| + |s.envs| + s.lost
  }

  /**
    When an operation ends the run: an address no page is given for, memory or ASIDs that do not suffice, a store
    to a page that is neither writable nor copy-on-write; or sharing a page without PTE_LIBRARY, which the
    copy-on-write theorem leaves out.
   */
  ghost predicate Stops(s: Memory, op: Op) {
    match op
    case OpLoad(e, va, _) => (e, Vpn(va)) !in s.pt && Panics(s.free, s.tables, e, va)
    case OpStore(e, va, _, _) =>
      if (e, Vpn(va)) !in s.pt then Panics(s.free, s.tables, e, va)
      else var lo := s.pt[(e, Vpn(va))].lo; !lo.d && (!lo.cow || Short(s.free, s.tables, e, UCOW_VPN))
    case OpShare(e, va, _, _, _) => (e, Vpn(va)) in s.pt && !s.pt[(e, Vpn(va))].lo.lib
    case OpFork(e, _, _) => |s.envs| >= NASID || s.free <= |Windows(s.pt, e, USTACK_VPN)|
    case _ => false
  }

  /** What a call returns. */
  function CallCode(s: Memory, op: Op): int {
    match op
    case OpAlloc(e, va, _) => AllocResult(s.free, s.tables, e, va)
    case OpShare(e, va, e2, va2, _) => MapResult(s.free, s.tables, s.pt, e, va, e2, va2)
    case OpUnmap(_, va) => if IllegalVa(va) then -E_INVAL else 0
    case _ => 0
  }

  /** `r` is what the operation yields in `s`: a word for a load, the result of a call, or the end of the run. */
  ghost predicate Yields(s: Memory, op: Op, r: Outcome) {
    if Stops(s, op) then r == Stopped
    else if op.OpLoad? then r.Value?
    else r == Code(CallCode(s, op))
  }

  /** The tables after the operation, those it needs having been made. */
  ghost function TablesAfter(s: Memory, op: Op, r: Outcome): set<(nat, nat)> {
    match op
    case OpLoad(e, va, _) => if (e, Vpn(va)) in s.pt then s.tables else s.tables + {(e, Pdx(Vpn(va)))}
    case OpStore(e, va, _, _) =>
      if (e, Vpn(va)) !in s.pt then s.tables + {(e, Pdx(Vpn(va)))}
      else if s.pt[(e, Vpn(va))].lo.d then s.tables
      else s.tables + {(e, Pdx(UCOW_VPN))}
    case OpAlloc(e, va, _) => if r == Code(0) then s.tables + {(e, Pdx(Vpn(va)))} else s.tables
    case OpShare(_, _, e2, va2, _) => if r == Code(0) then s.tables + {(e2, Pdx(Vpn(va2)))} else s.tables
    case OpUnmap(_, _) => s.tables
    case OpFork(e, child, _) => s.tables + ChildTables(child, Windows(s.pt, e, USTACK_VPN))
    case OpExit(e) => set k | k in s.tables && k.0 != e
  }

  /** The environments after the operation. */
  function EnvsAfter(envs: set<nat>, op: Op): set<nat> {
    if op.OpFork? then envs + {op.child} else if op.OpExit? then envs - {op.e} else envs
  }

  /** A page is lost only when sys_mem_alloc has it and gets none for the table. */
  function LostBy(s: Memory, op: Op, r: Outcome): nat {
    if op.OpAlloc? && r == Code(-E_NO_MEM) && s.free == 1 then 1 else 0
  }

  /** Whether the operation maps a new page. */
  predicate Takes(pt: PageTable, op: Op, r: Outcome) {
    match op
    case OpLoad(e, va, _) => (e, Vpn(va)) !in pt
    case OpStore(e, va, _, _) => (e, Vpn(va)) !in pt || !pt[(e, Vpn(va))].lo.d
    case OpAlloc(_, _, _) => r == Code(0)
    case _ => false
  }

  /** How the operation changes the flat table, with `p` the new page if it maps one. */
  ghost predicate PtMoves(pt: PageTable, pt': PageTable, op: Op, r: Outcome, p: Hi) {
    && (Takes(pt, op, r) ==> !Cow.Used(pt, p))
    && match op
       case OpLoad(e, va, _) => pt' == if (e, Vpn(va)) in pt then pt else pt[(e, Vpn(va)) := Word(p, DEMAND)]
       case OpStore(e, va, _, _) =>
         pt' == (var k := (e, Vpn(va));
           if k !in pt then pt[k := Word(p, DEMAND)]
           else if pt[k].lo.d then pt
           else pt[k := Word(p, pt[k].lo.(cow := false, d := true))])
       case OpAlloc(e, va, perm) =>
         pt' == if r == Code(0) then pt[(e, Vpn(va)) := Word(p, perm.(v := true))] else pt
       case OpShare(e, va, e2, va2, perm) =>
         pt' == if r == Code(0) && (e, Vpn(va)) in pt
           then pt[(e2, Vpn(va2)) := Word(pt[(e, Vpn(va))].hi, perm.(v := true))] else pt
       case OpUnmap(e, va) => pt' == if r == Code(0) then pt - {(e, Vpn(va))} else pt
       case OpFork(e, child, _) => pt' == Cow.ForkPt(pt, e, child)
       case OpExit(e) => pt' == OthersPt(pt, e)
  }

  /** What the operation makes of memory. How many pages are free then follows, no page being added or gone. */
  ghost predicate Evolves(s: Memory, s': Memory, op: Op, r: Outcome) {
    && s'.tables == TablesAfter(s, op, r) && s'.envs == EnvsAfter(s.envs, op) && s'.lost == s.lost + LostBy(s, op, r)
    && (exists p: Hi :: PtMoves(s.pt, s'.pt, op, r, p))
    && Total(s') == Total(s)
  }

  /** No page is added or gone while the boot pages are the same. */
  lemma SameTotal(m: Machine, ppRef: seq<nat>, freeList: seq<nat>, envs: map<nat, EnvVm>, tabs: Tables, pt: PageTable,
                  role: seq<Role>, pp: nat)
    requires m.Valid() && RolesOk(ppRef, freeList, envs, tabs, pt, role) && FewRoles(role, m.role, pp)
    ensures Total(MemoryOf(m)) == Total(Summary(freeList, envs, tabs, pt, role))
  {
    PagesConserved(ppRef, freeList, envs, tabs, pt, role);
    PagesConserved(m.ppRef, m.freeList, m.envs, m.tabs, m.pt, m.role);
    assert BootPages(m.role) == BootPages(role);
    hide *;
    assert |tabs.Keys| == |tabs| && |m.tabs.Keys| == |m.tabs|;
    assert |envs.Keys| == |envs| && |m.envs.Keys| == |m.envs|;
  }

  /** From what an operation did to tables, environments, lost pages and the flat table. */
  lemma Settle(m: Machine, ppRef: seq<nat>, freeList: seq<nat>, envs: map<nat, EnvVm>, tabs: Tables, pt: PageTable,
               role: seq<Role>, op: Op, r: Outcome, pp: nat, p: Hi)
    requires m.Valid() && RolesOk(ppRef, freeList, envs, tabs, pt, role) && FewRoles(role, m.role, pp)
    requires var s := Summary(freeList, envs, tabs, pt, role);
      && m.tabs.Keys == TablesAfter(s, op, r) && m.envs.Keys == EnvsAfter(envs.Keys, op)
      && |Lost(m.role)| == |Lost(role)| + LostBy(s, op, r)
    requires PtMoves(pt, m.pt, op, r, p)
    ensures Evolves(Summary(freeList, envs, tabs, pt, role), MemoryOf(m), op, r)
  {
    hide WalkOk, RolesOk, AsidsOk, TlbOk, WindowOk, FewRoles, PtMoves, TablesAfter, Total, PagesOf;
    SameTotal(m, ppRef, freeList, envs, tabs, pt, role, pp);
  }

  ghost predicate Good(m: Machine)
    reads m
  { m.Valid() && Cow.Inv(View(m)) }

  /** The operation was a run from the state before to the state now. */
  ghost predicate Ran(m: Machine, s: Cow.Lazy, t: Trace)
    reads m
  { Good(m) && Path(t, s, View(m)) }

  /** The operation did exactly its own steps, from the state before to the state now. */
  ghost predicate Did(m: Machine, s: Cow.Lazy, t: Trace, op: Op, r: Outcome)
    reads m
  { Ran(m, s, t) && (op.OpLoad? ==> r.Value?) && t.acts == Segment(s.pt, op, r) }

  lemma PathInv(t: Trace, s: Cow.Lazy, s': Cow.Lazy)
    requires Path(t, s, s') && Cow.Inv(s)
    ensures Cow.Inv(s')
  {
    hide Cow.Step, Cow.Inv;
    Cow.RunInv(t.states, t.acts, |t.acts|);
  }

  lemma Finish(m: Machine, s: Cow.Lazy, t: Trace)
    requires m.Valid() && Cow.Inv(s) && Path(t, s, View(m))
    ensures Ran(m, s, t)
  {
    hide Cow.Inv, Path, WalkOk, RolesOk, AsidsOk, TlbOk, WindowOk;
    PathInv(t, s, View(m));
  }

  /** The page that demand allocation took. */
  lemma DemandPage(m: Machine, mem: seq<Frame>, tabs: Tables, pt: PageTable, role: seq<Role>, va: nat, e: nat,
                   f: Frame) returns (p: Hi)
    requires Demanded(m, mem, tabs, pt, role, va, e, f)
    ensures p < m.npage == |m.mem| == |m.role| == |role| && m.pt == pt[(e, Vpn(va)) := Word(p, DEMAND)] && m.mem[p] == f
    ensures role[p] == Free && m.role[p] == Data && FewRoles(role, m.role, p) && DataKept(mem, role, m.mem, m.role)
    ensures Vpn(va) >= UTEMP_VPN && m.tabs.Keys == tabs.Keys + {(e, Pdx(Vpn(va)))}
  {
    hide DataKept, FewRoles;
    p :| p < m.npage && role[p] == Free && m.role[p] == Data && m.mem[p] == f
      && m.pt == pt[(e, Vpn(va)) := Word(p, DEMAND)]
      && m.SameData(mem, role) && m.NoNewData(role, p);
  }

  /** Demand allocation is an Alloc step, whatever the new page holds in the end. */
  lemma DemandStep(m: Machine, mem: seq<Frame>, pt: PageTable, role: seq<Role>, ppRef: seq<nat>, freeList: seq<nat>,
                   envs: map<nat, EnvVm>, tabs: Tables, v: nat, e: nat, p: Hi)
    requires m.Valid() && p < m.npage == |mem| == |role| && RolesOk(ppRef, freeList, envs, tabs, pt, role)
    requires role[p] == Free && m.SameData(mem, role) && m.pt == pt[(e, v) := Word(p, DEMAND)]
    requires UTEMP_VPN <= v && v != UCOW_VPN
    ensures !Cow.Used(pt, p)
    ensures Cow.Step(Cow.Lazy(pt, mem, map[]), Cow.Lazy(m.pt, m.mem[p := ZeroFrame()], map[]), Cow.Alloc(e, v, DEMAND))
  {
    hide WalkOk, RolesOk, AsidsOk, TlbOk, WindowOk, DataKept, FewRoles;
    KeepData(m, mem, pt, role, ppRef, freeList, envs, tabs);
    DataIffUsed(ppRef, freeList, envs, tabs, pt, role, p);
    hide Cow.Step, Cow.Keep, Cow.Used;
    FreshStep(Cow.Lazy(pt, mem, map[]), View(m), e, v, p);
  }

  /** Mapping a page that was not in use; what it holds in the end does not matter. */
  lemma FreshStep(s: Cow.Lazy, s': Cow.Lazy, e: nat, v: nat, p: Hi)
    requires s.phase == s'.phase == map[] && UTEMP_VPN <= v && v != UCOW_VPN
    requires p < |s.mem| && !Cow.Used(s.pt, p) && Cow.Keep(s, s') && s'.pt == s.pt[(e, v) := Word(p, DEMAND)]
    ensures Cow.Step(s, s'.(mem := s'.mem[p := ZeroFrame()]), Cow.Alloc(e, v, DEMAND))
  {
    assert Cow.Keep(s, s'.(mem := s'.mem[p := ZeroFrame()]));
  }

  /** An operation that only touches contents. */
  lemma Unmoved(m: Machine, ppRef: seq<nat>, freeList: seq<nat>, envs: map<nat, EnvVm>, tabs: Tables, pt: PageTable,
                role: seq<Role>, op: Op, r: Outcome)
    requires m.Valid() && m.freeList == freeList && m.envs == envs && m.tabs == tabs && m.pt == pt && m.role == role
    requires op.OpLoad? || op.OpStore?
    requires (op.e, Vpn(op.va)) in pt && (op.OpStore? ==> pt[(op.e, Vpn(op.va))].lo.d)
    ensures Evolves(Summary(freeList, envs, tabs, pt, role), MemoryOf(m), op, r)
  {
    assert PtMoves(pt, pt, op, r, 0);
  }

  /** An operation that maps a page of the free list. */
  lemma Moved(m: Machine, ppRef: seq<nat>, freeList: seq<nat>, envs: map<nat, EnvVm>, tabs: Tables, pt: PageTable,
              role: seq<Role>, op: Op, r: Outcome, p: Hi)
    requires m.Valid() && RolesOk(ppRef, freeList, envs, tabs, pt, role) && FewRoles(role, m.role, p)
    requires p < |role| && role[p] == Free && m.role[p] == Data && m.envs == envs
    requires m.tabs.Keys == TablesAfter(Summary(freeList, envs, tabs, pt, role), op, r)
    requires (op.OpLoad? || op.OpStore? || (op.OpAlloc? && r == Code(0))) && PtMoves(pt, m.pt, op, r, p)
    ensures Evolves(Summary(freeList, envs, tabs, pt, role), MemoryOf(m), op, r)
  {
    hide WalkOk, RolesOk, AsidsOk, TlbOk, WindowOk, PtMoves, TablesAfter;
    LostSame(role, m.role, p);
    Settle(m, ppRef, freeList, envs, tabs, pt, role, op, r, p, p);
  }

  /** An operation that maps no new page and loses none. */
  lemma Rearranged(m: Machine, ppRef: seq<nat>, freeList: seq<nat>, envs: map<nat, EnvVm>, tabs: Tables, pt: PageTable,
                   role: seq<Role>, op: Op, r: Outcome)
    requires m.Valid() && RolesOk(ppRef, freeList, envs, tabs, pt, role) && FewRoles(role, m.role, |role|)
    requires m.tabs.Keys == TablesAfter(Summary(freeList, envs, tabs, pt, role), op, r)
    requires m.envs.Keys == EnvsAfter(envs.Keys, op)
    requires PtMoves(pt, m.pt, op, r, 0) && !op.OpAlloc?
    ensures Evolves(Summary(freeList, envs, tabs, pt, role), MemoryOf(m), op, r)
  {
    hide WalkOk, RolesOk, AsidsOk, TlbOk, WindowOk, PtMoves, TablesAfter;
    LostSame(role, m.role, |role|);
    Settle(m, ppRef, freeList, envs, tabs, pt, role, op, r, |role|, 0);
  }

  /** sys_mem_alloc refused: nothing, or the last free page is lost. */
  lemma AllocRefused(m: Machine, ppRef: seq<nat>, freeList: seq<nat>, envs: map<nat, EnvVm>, tabs: Tables,
                     pt: PageTable, role: seq<Role>, op: Op, x: int)
    requires m.Valid() && RolesOk(ppRef, freeList, envs, tabs, pt, role) && op.OpAlloc?
    requires x == AllocResult(|freeList|, tabs.Keys, op.e, op.va) && x != 0
    requires m.envs == envs && m.tabs == tabs && m.pt == pt
    requires x == -E_INVAL || freeList == [] ==> m.role == role
    requires x == -E_NO_MEM && freeList != [] ==>
      |freeList| == 1 && freeList[0] < |role| && m.role == role[freeList[0] := Limbo]
    ensures Evolves(Summary(freeList, envs, tabs, pt, role), MemoryOf(m), op, Code(x))
  {
    var s := Summary(freeList, envs, tabs, pt, role);
    assert PtMoves(pt, m.pt, op, Code(x), 0);
    if x == -E_NO_MEM && freeList != [] {
      var p := freeList[0];
      assert p in freeList && role[p] == Free;
      hide RolesOk, WalkOk, AsidsOk, TlbOk, WindowOk;
      assert Lost(m.role) == Lost(role) + {p};
      Settle(m, ppRef, freeList, envs, tabs, pt, role, op, Code(x), p, 0);
    } else {
      assert FewRoles(role, m.role, |role|);
      Settle(m, ppRef, freeList, envs, tabs, pt, role, op, Code(x), |role|, 0);
    }
  }

  method DoLoad(m: Machine, op: Op) returns (r: Outcome, ghost t: Trace)
    requires Good(m) && op.OpLoad? && op.e in m.envs && op.va < UTOP && Cow.UserVpn(Vpn(op.va))
    modifies m`mem, m`ppRef, m`freeList, m`tlb, m`pt, m`role, m`tabs
    ensures Yields(old(MemoryOf(m)), op, r)
    ensures r != Stopped ==> Did(m, old(View(m)), t, op, r) && Evolves(old(MemoryOf(m)), MemoryOf(m), op, r)
  {
    hide WalkOk, RolesOk, AsidsOk, TlbOk, WindowOk, Cow.Inv, Panics;
    var e, va := op.e, op.va;
    ghost var s := View(m);
    t := Stay(s);
    var l := Load(m, va, op.evict, e, m.envs[e].pgdir, m.envs[e].asid);
    if l == LoadPanic { return Stopped, t; }
    r := Value(l.w);
    ghost var read := Own(op, r);
    assert Cow.Step(View(m), View(m), read);
    if (e, Vpn(va)) in s.pt {
      t := One(s, read, View(m));
      OnePath(s, read, View(m));
      Unmoved(m, old(m.ppRef), old(m.freeList), old(m.envs), old(m.tabs), old(m.pt), old(m.role), op, r);
    } else {
      ghost var p := DemandPage(m, old(m.mem), old(m.tabs), old(m.pt), old(m.role), va, e, ZeroFrame());
      DemandStep(m, old(m.mem), old(m.pt), old(m.role), old(m.ppRef), old(m.freeList), old(m.envs), old(m.tabs),
                 Vpn(va), e, p);
      assert m.mem[p := ZeroFrame()] == m.mem;
      Moved(m, old(m.ppRef), old(m.freeList), old(m.envs), old(m.tabs), old(m.pt), old(m.role), op, r, p);
      t := Two(s, Cow.Alloc(e, Vpn(va), DEMAND), View(m), read, View(m));
      TwoPath(s, Cow.Alloc(e, Vpn(va), DEMAND), View(m), read, View(m));
    }
    Finish(m, s, t);
  }

  /** A store through an entry that is there and writable is a Write step. */
  lemma WriteStep(s: Cow.Lazy, s': Cow.Lazy, e: int, v: int, off: int, w: Word)
    requires s.phase == map[] && (e, v) in s.pt && s.pt[(e, v)].hi < |s.mem| && 0 <= off < NPTE
    requires s.pt[(e, v)].lo.d && v != UCOW_VPN
    requires s' == s.(mem := s.mem[s.pt[(e, v)].hi := s.mem[s.pt[(e, v)].hi][off := w]])
    ensures Cow.Step(s, s', Cow.Write(e, v, off, w))
  {}

  /** A store to a page that is mapped and writable. */
  method StoreMapped(m: Machine, op: Op) returns (ghost t: Trace)
    requires Good(m) && op.OpStore? && op.e in m.envs && op.va < UTOP && Vpn(op.va) != UCOW_VPN
    requires (op.e, Vpn(op.va)) in m.pt && m.pt[(op.e, Vpn(op.va))].lo.d
    modifies m`mem, m`ppRef, m`freeList, m`tlb, m`pt, m`role, m`tabs
    ensures Ran(m, old(View(m)), t) && t.acts == [Own(op, Code(0))] && MemoryOf(m) == old(MemoryOf(m))
  {
    hide WalkOk, RolesOk, AsidsOk, TlbOk, WindowOk, Cow.Inv, Cow.Step;
    ghost var s := View(m);
    var r := Store(m, op.va, op.w, op.evict, op.e, m.envs[op.e].pgdir, m.envs[op.e].asid);
    ghost var write := Cow.Write(op.e, Vpn(op.va), Offset(op.va), op.w);
    WriteStep(s, View(m), op.e, Vpn(op.va), Offset(op.va), op.w);
    t := One(s, write, View(m));
    OnePath(s, write, View(m));
    Finish(m, s, t);
  }

  /** A store to a page that is not mapped: allocated on demand, then written. */
  lemma StoreDemanded(s: Cow.Lazy, s': Cow.Lazy, v: nat, e: nat, off: nat, w: Word, p: Hi) returns (t: Trace)
    requires s.phase == s'.phase == map[] && p < |s'.mem| && v != UCOW_VPN && off < NPTE
    requires s'.pt == s.pt[(e, v) := Word(p, DEMAND)] && s'.mem[p] == ZeroFrame()[off := w]
    requires Cow.Step(s, s'.(mem := s'.mem[p := ZeroFrame()]), Cow.Alloc(e, v, DEMAND))
    ensures Path(t, s, s') && t.acts == [Cow.Alloc(e, v, DEMAND), Cow.Write(e, v, off, w)]
  {
    hide Cow.Step, Path;
    var s1 := s'.(mem := s'.mem[p := ZeroFrame()]);
    assert s1.mem[p := s1.mem[p][off := w]] == s'.mem;
    WriteStep(s1, s', e, v, off, w);
    t := Two(s, Cow.Alloc(e, v, DEMAND), s1, Cow.Write(e, v, off, w), s');
    TwoPath(s, Cow.Alloc(e, v, DEMAND), s1, Cow.Write(e, v, off, w), s');
  }

  /** do_tlb_mod and cow_entry. */
  method DoFault(m: Machine, e: nat, va: nat, ghost op: Op) returns (ok: bool, ghost t: Trace)
    requires Good(m) && e in m.envs && va < UTOP && Vpn(va) != UCOW_VPN && (e, Vpn(va)) in m.pt
    requires op.OpStore? && op.e == e && op.va == va && !m.pt[(e, Vpn(va))].lo.d
    modifies m`mem, m`ppRef, m`freeList, m`tlb, m`pt, m`role, m`tabs
    ensures ok <==>
      old(m.pt)[(e, Vpn(va))].lo.cow && !Short(|old(m.freeList)|, old(m.tabs).Keys, e, UCOW_VPN)
    ensures ok ==> Ran(m, old(View(m)), t) && t.acts == HandlerActs(e, Vpn(va))
    ensures ok ==> (e, Vpn(va)) in m.pt && m.pt[(e, Vpn(va))].lo.d
    ensures ok ==> Evolves(old(MemoryOf(m)), MemoryOf(m), op, Code(0))
  {
    hide WalkOk, RolesOk, AsidsOk, TlbOk, WindowOk, Short;
    ghost var s := View(m);
    t := Stay(s);
    assert s.PhaseOf(e) == Cow.Idle;
    assert (e, UCOW_VPN) !in m.pt && UTEMP_VPN <= (e, Vpn(va)).1;
    var r := CowEntry(m, e, va);
    if r != Resumed { return false, t; }
    hide Cow.Inv;
    ghost var p := m.pt[(e, Vpn(va))].hi;
    assert Handled(s, View(m), e, Vpn(va), p) by { FaultedUser(s, e, Vpn(va)); }
    HandlerPath(s, View(m), e, Vpn(va), p);
    t := HandlerTrace(s, View(m), e, Vpn(va), p);
    hide HandlerActs;
    Moved(m, old(m.ppRef), old(m.freeList), old(m.envs), old(m.tabs), old(m.pt), old(m.role), op, Code(0), p);
    Finish(m, s, t);
    ok := true;
  }

  lemma FaultedUser(s: Cow.Lazy, e: int, v: int)
    requires Cow.Inv(s) && (e, v) in s.pt && s.pt[(e, v)].lo.cow && v != UCOW_VPN
    ensures Cow.UserVpn(v) && s.pt[(e, v)].hi < |s.mem|
  {
    assert s.pt[(e, v)] == s.pt[(e, v)] && (e, v).1 == v;
  }

  /** A store that found the entry and changed nothing for want of PTE_D: the handler, then the store again. */
  method FaultAndStore(m: Machine, op: Op) returns (r: Outcome, ghost t: Trace)
    requires Good(m) && op.OpStore? && op.e in m.envs && op.va < UTOP && Vpn(op.va) != UCOW_VPN
    requires (op.e, Vpn(op.va)) in m.pt && !m.pt[(op.e, Vpn(op.va))].lo.d
    modifies m`mem, m`ppRef, m`freeList, m`tlb, m`pt, m`role, m`tabs
    ensures Yields(old(MemoryOf(m)), op, r)
    ensures r != Stopped ==> Did(m, old(View(m)), t, op, r) && Evolves(old(MemoryOf(m)), MemoryOf(m), op, r)
  {
    hide WalkOk, RolesOk, AsidsOk, TlbOk, WindowOk, Cow.Inv, Cow.Step, Path, HandlerActs, Short;
    ghost var s := View(m);
    var ok;
    ok, t := DoFault(m, op.e, op.va, op);
    if !ok { return Stopped, t; }
    ghost var s1 := View(m);
    ghost var u := StoreMapped(m, op);
    PathStart(u, s1, View(m));
    Joined(t, u, s, s1, View(m));
    t := Join(t, u);
    r := Code(0);
  }

  method DoStore(m: Machine, op: Op) returns (r: Outcome, ghost t: Trace)
    requires Good(m) && op.OpStore? && op.e in m.envs && op.va < UTOP && Vpn(op.va) != UCOW_VPN
    modifies m`mem, m`ppRef, m`freeList, m`tlb, m`pt, m`role, m`tabs
    ensures Yields(old(MemoryOf(m)), op, r)
    ensures r != Stopped ==> Did(m, old(View(m)), t, op, r) && Evolves(old(MemoryOf(m)), MemoryOf(m), op, r)
  {
    hide WalkOk, RolesOk, AsidsOk, TlbOk, WindowOk, Cow.Inv, Cow.Step, Path, HandlerActs, Short, Panics;
    var e, va, w := op.e, op.va, op.w;
    ghost var s := View(m);
    t := Stay(s);
    var st := Store(m, va, w, op.evict, e, m.envs[e].pgdir, m.envs[e].asid);
    if st == StorePanic { return Stopped, t; }
    if st == Stored {
      if (e, Vpn(va)) in s.pt {
        WriteStep(s, View(m), e, Vpn(va), Offset(va), w);
        t := One(s, Own(op, Code(0)), View(m));
        OnePath(s, Own(op, Code(0)), View(m));
        Unmoved(m, old(m.ppRef), old(m.freeList), old(m.envs), old(m.tabs), old(m.pt), old(m.role), op, Code(0));
      } else {
        ghost var f: Frame := ZeroFrame()[Offset(va) := w];
        ghost var p := DemandPage(m, old(m.mem), old(m.tabs), old(m.pt), old(m.role), va, e, f);
        DemandStep(m, old(m.mem), old(m.pt), old(m.role), old(m.ppRef), old(m.freeList), old(m.envs), old(m.tabs),
                   Vpn(va), e, p);
        t := StoreDemanded(s, View(m), Vpn(va), e, Offset(va), w, p);
        Moved(m, old(m.ppRef), old(m.freeList), old(m.envs), old(m.tabs), old(m.pt), old(m.role), op, Code(0), p);
      }
      Finish(m, s, t);
      r := Code(0);
    } else {
      assert View(m) == s;
      r, t := FaultAndStore(m, op);
    }
  }

  lemma PathStart(t: Trace, s: Cow.Lazy, s': Cow.Lazy)
    requires Path(t, s, s')
    ensures t.states != []
  {}

  // ---- the memory system calls, fork and exit ----

  /** A call that was refused changed no mapping. */
  lemma SkipStep(m: Machine, mem: seq<Frame>, pt: PageTable, role: seq<Role>, ppRef: seq<nat>, freeList: seq<nat>,
                 envs: map<nat, EnvVm>, tabs: Tables)
    requires m.Valid() && |mem| == |role| == m.npage && RolesOk(ppRef, freeList, envs, tabs, pt, role)
    requires m.SameData(mem, role) && m.pt == pt
    ensures Cow.Step(Cow.Lazy(pt, mem, map[]), View(m), Cow.Skip)
  {
    KeepData(m, mem, pt, role, ppRef, freeList, envs, tabs);
  }

  /** sys_mem_alloc, for a page of the program that is not marked copy-on-write. */
  method DoAlloc(m: Machine, op: Op) returns (r: Outcome, ghost t: Trace)
    requires Good(m) && op.OpAlloc? && op.e in m.envs && Vpn(op.va) != UCOW_VPN && !op.perm.cow
    modifies m`mem, m`ppRef, m`freeList, m`tlb, m`pt, m`role, m`tabs
    ensures Yields(old(MemoryOf(m)), op, r) && Did(m, old(View(m)), t, op, r)
    ensures Evolves(old(MemoryOf(m)), MemoryOf(m), op, r)
  {
    hide WalkOk, RolesOk, AsidsOk, TlbOk, WindowOk, Cow.Inv, DataKept, FewRoles, Short;
    var e, va, perm := op.e, op.va, op.perm;
    ghost var s := View(m);
    if m.freeList != [] { FreeUnused(m.ppRef, m.freeList, m.envs, m.tabs, m.pt, m.role); }
    var x := SysMemAlloc(m, va, perm, e);
    r := Code(x);
    ghost var a := Own(op, r);
    if x == 0 {
      KeepData(m, old(m.mem), old(m.pt), old(m.role), old(m.ppRef), old(m.freeList), old(m.envs), old(m.tabs));
      assert Cow.FreshPage(s, View(m), (e, Vpn(va)), perm.(v := true)) by {
        assert !Cow.Used(s.pt, old(m.freeList)[0]);
      }
      assert Cow.Step(s, View(m), a);
      Moved(m, old(m.ppRef), old(m.freeList), old(m.envs), old(m.tabs), old(m.pt), old(m.role), op, r,
            old(m.freeList)[0]);
    } else {
      SkipStep(m, old(m.mem), old(m.pt), old(m.role), old(m.ppRef), old(m.freeList), old(m.envs), old(m.tabs));
      AllocRefused(m, old(m.ppRef), old(m.freeList), old(m.envs), old(m.tabs), old(m.pt), old(m.role), op, x);
    }
    t := One(s, a, View(m));
    OnePath(s, a, View(m));
    Finish(m, s, t);
  }

  /** sys_mem_map of a library page. */
  method DoShare(m: Machine, op: Op) returns (r: Outcome, ghost t: Trace)
    requires Good(m) && op.OpShare? && op.e in m.envs && op.e2 in m.envs && op.va < UTOP && op.va2 < UTOP
    requires Cow.UserVpn(Vpn(op.va)) && Cow.UserVpn(Vpn(op.va2)) && op.perm.lib && !op.perm.cow
    modifies m`mem, m`ppRef, m`freeList, m`tlb, m`pt, m`role, m`tabs
    ensures Yields(old(MemoryOf(m)), op, r)
    ensures r != Stopped ==> Did(m, old(View(m)), t, op, r) && Evolves(old(MemoryOf(m)), MemoryOf(m), op, r)
  {
    hide WalkOk, RolesOk, AsidsOk, TlbOk, WindowOk, Cow.Inv, DataKept, FewRoles;
    var e, va := op.e, op.va;
    ghost var s := View(m);
    t := Stay(s);
    var pp, pte := m.PageLookup(m.envs[e].pgdir, Vpn(va), e);
    WalkPte(m.mem, m.envs, m.tabs, m.pt, e, Vpn(va));
    if pte != NoPte && !m.mem[pte.frame][pte.index].lo.lib { return Stopped, t; }
    var x := SysMemMap(m, e, va, op.e2, op.va2, op.perm);
    r := Code(x);
    ghost var a := Own(op, r);
    if x == 0 {
      KeepData(m, old(m.mem), old(m.pt), old(m.role), old(m.ppRef), old(m.freeList), old(m.envs), old(m.tabs));
      assert Cow.Step(s, View(m), a);
    } else {
      SkipStep(m, old(m.mem), old(m.pt), old(m.role), old(m.ppRef), old(m.freeList), old(m.envs), old(m.tabs));
    }
    Rearranged(m, old(m.ppRef), old(m.freeList), old(m.envs), old(m.tabs), old(m.pt), old(m.role), op, r);
    t := One(s, a, View(m));
    OnePath(s, a, View(m));
    Finish(m, s, t);
  }

  method DoUnmap(m: Machine, op: Op) returns (r: Outcome, ghost t: Trace)
    requires Good(m) && op.OpUnmap? && op.e in m.envs && Vpn(op.va) != UCOW_VPN
    modifies m`mem, m`ppRef, m`freeList, m`tlb, m`pt, m`role
    ensures Yields(old(MemoryOf(m)), op, r) && Did(m, old(View(m)), t, op, r)
    ensures Evolves(old(MemoryOf(m)), MemoryOf(m), op, r)
  {
    hide WalkOk, RolesOk, AsidsOk, TlbOk, WindowOk, Cow.Inv, DataKept, FewRoles;
    ghost var s := View(m);
    var x := SysMemUnmap(m, op.va, op.e);
    r := Code(x);
    ghost var a := Own(op, r);
    KeepData(m, old(m.mem), old(m.pt), old(m.role), old(m.ppRef), old(m.freeList), old(m.envs), old(m.tabs));
    assert Cow.Step(s, View(m), a);
    Rearranged(m, old(m.ppRef), old(m.freeList), old(m.envs), old(m.tabs), old(m.pt), old(m.role), op, r);
    t := One(s, a, View(m));
    OnePath(s, a, View(m));
    Finish(m, s, t);
  }

  method DoFork(m: Machine, op: Op) returns (r: Outcome, ghost t: Trace)
    requires Good(m) && op.OpFork? && op.e in m.envs && op.child !in m.envs && op.base < m.npage
    modifies m`mem, m`ppRef, m`freeList, m`tlb, m`asidUsed, m`envs, m`tabs, m`pt, m`role, m`owner
    ensures Yields(old(MemoryOf(m)), op, r)
    ensures r != Stopped ==> Did(m, old(View(m)), t, op, r) && Evolves(old(MemoryOf(m)), MemoryOf(m), op, r)
  {
    hide WalkOk, RolesOk, AsidsOk, TlbOk, WindowOk, Windows;
    ghost var s := View(m);
    t := Stay(s);
    assert forall k :: k in m.pt ==> UTEMP_VPN <= k.1 by {
      forall k | k in m.pt ensures UTEMP_VPN <= k.1 { assert s.pt[k] == m.pt[k]; }
    }
    hide Cow.Inv, Cow.Step, FewRoles, DataKept;
    FreeAsid(m.asidUsed, m.envs, m.owner);
    var made, ok := Fork(m, op.e, op.child, op.base);
    if !ok { return Stopped, t; }
    t := One(s, Own(op, Code(0)), View(m));
    OnePath(s, Own(op, Code(0)), View(m));
    ForkStepPt(s, View(m), op.e, op.child);
    Rearranged(m, old(m.ppRef), old(m.freeList), old(m.envs), old(m.tabs), old(m.pt), old(m.role), op, Code(0));
    Finish(m, s, t);
    r := Code(0);
  }

  lemma ForkStepPt(s: Cow.Lazy, s': Cow.Lazy, e: nat, child: nat)
    requires Cow.Step(s, s', Cow.Act.Fork(e, child))
    ensures s'.pt == Cow.ForkPt(s.pt, e, child)
  {}

  lemma OthersKeys(tabs: Tables, e: nat)
    ensures OthersTabs(tabs, e).Keys == set k | k in tabs.Keys && k.0 != e
  {}

  lemma ExitStep(s: Cow.Lazy, s': Cow.Lazy, e: nat)
    requires s.phase == s'.phase == map[] && s'.pt == (map k | k in s.pt && k.0 != e :: s.pt[k]) && Cow.Keep(s, s')
    ensures Cow.Step(s, s', Cow.Exit(e))
  {
    assert s.phase - {e} == map[];
  }

  method DoExit(m: Machine, op: Op) returns (r: Outcome, ghost t: Trace)
    requires Good(m) && op.OpExit? && op.e in m.envs
    modifies m`mem, m`ppRef, m`freeList, m`tlb, m`asidUsed, m`envs, m`tabs, m`pt, m`role, m`owner
    ensures Yields(old(MemoryOf(m)), op, r) && Did(m, old(View(m)), t, op, r)
    ensures Evolves(old(MemoryOf(m)), MemoryOf(m), op, r)
  {
    hide WalkOk, RolesOk, AsidsOk, TlbOk, WindowOk, Cow.Inv, DataKept, FewRoles;
    ghost var s := View(m);
    EnvFree(m, op.e);
    KeepData(m, old(m.mem), old(m.pt), old(m.role), old(m.ppRef), old(m.freeList), old(m.envs), old(m.tabs));
    assert View(m).pt == map k | k in s.pt && k.0 != op.e :: s.pt[k];
    ExitStep(s, View(m), op.e);
    hide Cow.Step, OthersPt, OthersTabs, Counts.GivenBack, Cow.Keep, Path;
    r := Code(0);
    OthersKeys(old(m.tabs), op.e);
    Rearranged(m, old(m.ppRef), old(m.freeList), old(m.envs), old(m.tabs), old(m.pt), old(m.role), op, r);
    t := One(s, Own(op, r), View(m));
    OnePath(s, Own(op, r), View(m));
    Finish(m, s, t);
  }

  // ---- whole runs ----

  /** What the operation needs of the machine, in terms a caller can check. */
  predicate Ready(envs: set<nat>, npage: nat, op: Op) {
    match op
    case OpLoad(e, va, _) => e in envs && va < UTOP && Cow.UserVpn(Vpn(va))
    case OpStore(e, va, _, _) => e in envs && va < UTOP && Vpn(va) != UCOW_VPN
    case OpAlloc(e, va, perm) => e in envs && Vpn(va) != UCOW_VPN && !perm.cow
    case OpShare(e, va, e2, va2, perm) =>
      && e in envs && e2 in envs && va < UTOP && va2 < UTOP
      && Cow.UserVpn(Vpn(va)) && Cow.UserVpn(Vpn(va2)) && perm.lib && !perm.cow
    case OpUnmap(e, va) => e in envs && Vpn(va) != UCOW_VPN
    case OpFork(e, child, base) => e in envs && child !in envs && base < npage
    case OpExit(e) => e in envs
  }

  method Perform(m: Machine, op: Op) returns (r: Outcome, ghost t: Trace)
    requires Good(m) && Ready(m.envs.Keys, m.npage, op)
    modifies m`mem, m`ppRef, m`freeList, m`tlb, m`asidUsed, m`envs, m`tabs, m`pt, m`role, m`owner
    ensures Yields(old(MemoryOf(m)), op, r)
    ensures r != Stopped ==> Did(m, old(View(m)), t, op, r) && Evolves(old(MemoryOf(m)), MemoryOf(m), op, r)
  {
    hide WalkOk, RolesOk, AsidsOk, TlbOk, WindowOk, Cow.Inv, Path, Yields, Segment, Own;
    match op {
      case OpLoad(_, _, _) => r, t := DoLoad(m, op);
      case OpStore(_, _, _, _) => r, t := DoStore(m, op);
      case OpAlloc(_, _, _) => r, t := DoAlloc(m, op);
      case OpShare(_, _, _, _, _) => r, t := DoShare(m, op);
      case OpUnmap(_, _) => r, t := DoUnmap(m, op);
      case OpFork(_, _, _) => r, t := DoFork(m, op);
      case OpExit(_) => r, t := DoExit(m, op);
    }
  }

  // What is known of a run: where in the trace each operation begins, and what memory was like there.
  datatype Log = Log(t: Trace, cuts: seq<nat>, memory: seq<Memory>)

  /**
    The trace is that of the operations with these outcomes, one after another, each with exactly its own steps,
    its outcome decided by memory at its beginning, and memory then what it made of it.
   */
  ghost predicate Explained(ops: seq<Op>, rs: seq<Outcome>, g: Log) {
    && |g.t.states| == |g.t.acts| + 1 && |g.cuts| == |g.memory| == |rs| + 1 <= |ops| + 1
    && g.cuts[0] == 0 && g.cuts[|rs|] == |g.t.acts|
    && (forall i {:trigger g.cuts[i]} {:trigger g.memory[i]} :: 0 <= i <= |rs| ==> At(g, i))
    && forall i {:trigger ops[i]} {:trigger rs[i]} {:trigger g.cuts[i]} :: 0 <= i < |rs| ==>
         Segmented(ops[i], rs[i], g, i)
  }

  /** Memory at the i-th cut is that of the trace. */
  ghost predicate At(g: Log, i: nat) {
    i < |g.cuts| == |g.memory| && g.cuts[i] < |g.t.states| && g.memory[i].pt == g.t.states[g.cuts[i]].pt
  }

  ghost predicate Segmented(op: Op, r: Outcome, g: Log, i: nat) {
    && At(g, i) && i + 1 < |g.cuts| && g.cuts[i] <= g.cuts[i + 1] <= |g.t.acts| && |g.t.states| == |g.t.acts| + 1
    && r != Stopped && Yields(g.memory[i], op, r) && Evolves(g.memory[i], g.memory[i + 1], op, r)
    && g.t.acts[g.cuts[i]..g.cuts[i + 1]] == Segment(g.t.states[g.cuts[i]].pt, op, r)
  }

  function Extend(g: Log, u: Trace, mem: Memory): Log
    requires u.states != []
  { Log(Join(g.t, u), g.cuts + [|g.t.acts| + |u.acts|], g.memory + [mem]) }

  lemma ExplainedThen(ops: seq<Op>, rs: seq<Outcome>, g: Log, r: Outcome, u: Trace, mem: Memory)
    requires Explained(ops, rs, g) && |rs| < |ops| && |u.states| == |u.acts| + 1
    requires u.states[0] == g.t.states[|g.t.acts|] && mem.pt == u.states[|u.acts|].pt
    requires r != Stopped && Yields(g.memory[|rs|], ops[|rs|], r) && u.acts == Segment(u.states[0].pt, ops[|rs|], r)
    requires Evolves(g.memory[|rs|], mem, ops[|rs|], r)
    ensures Explained(ops, rs + [r], Extend(g, u, mem))
  {
    hide Yields, Segment, Evolves;
    var g', rs' := Extend(g, u, mem), rs + [r];
    forall i | 0 <= i <= |rs'| ensures At(g', i) {
      if i <= |rs| { assert At(g, i); }
    }
    forall i | 0 <= i < |rs'| ensures Segmented(ops[i], rs'[i], g', i) {
      if i < |rs| {
        assert Segmented(ops[i], rs[i], g, i);
        assert g'.t.acts[g'.cuts[i]..g'.cuts[i + 1]] == g.t.acts[g.cuts[i]..g.cuts[i + 1]];
      } else {
        assert At(g, i);
        assert g'.t.acts[g'.cuts[i]..g'.cuts[i + 1]] == u.acts;
        assert g'.t.states[g'.cuts[i]] == u.states[0];
      }
    }
  }

  // Why a run ended: no operation was left, the next one was not ready, or it stopped.
  datatype End = AllDone | NotReady | Halted

  /** How a run of `ops` ends after `n` of them, with memory `s`. */
  ghost predicate EndsAs(ops: seq<Op>, n: nat, s: Memory, npage: nat, end: End) {
    match end
    case AllDone => n == |ops|
    case NotReady => n < |ops| && !Ready(s.envs, npage, ops[n])
    case Halted => n < |ops| && Ready(s.envs, npage, ops[n]) && Stops(s, ops[n])
  }

  /**
    Any list of operations, up to the first that stops or is not ready, is one run from the start, made of exactly
    the steps of those operations. Memory at the start is the machine's, and memory later follows from it, so where
    the run ends, and with which results, is decided by the machine and the list.
   */
  method Run(m: Machine, ops: seq<Op>) returns (rs: seq<Outcome>, end: End, ghost g: Log)
    requires Good(m)
    modifies m`mem, m`ppRef, m`freeList, m`tlb, m`asidUsed, m`envs, m`tabs, m`pt, m`role, m`owner
    ensures Explained(ops, rs, g) && Path(g.t, old(View(m)), g.t.states[|g.t.acts|])
    ensures g.memory[0] == old(MemoryOf(m)) && EndsAs(ops, |rs|, g.memory[|rs|], m.npage, end)
    ensures end != Halted ==> Ran(m, old(View(m)), g.t) && g.memory[|rs|] == MemoryOf(m)
  {
    hide WalkOk, RolesOk, AsidsOk, TlbOk, WindowOk, Cow.Inv, Path, Segment, Stops, Explained, Evolves;
    rs := [];
    ghost var s0 := View(m);
    g := Log(Stay(s0), [0], [MemoryOf(m)]);
    StayPath(s0);
    NothingYet(ops, s0, MemoryOf(m));
    while |rs| < |ops|
      invariant |rs| <= |ops| && Ran(m, s0, g.t) && Explained(ops, rs, g)
      invariant |g.memory| == |rs| + 1 && g.memory[|rs|] == MemoryOf(m) && g.memory[0] == old(MemoryOf(m))
      decreases |ops| - |rs|
    {
      PathEnd(g.t, s0, View(m));
      if !Ready(m.envs.Keys, m.npage, ops[|rs|]) { return rs, NotReady, g; }
      ghost var s1 := View(m);
      ghost var u;
      var r;
      r, u := Perform(m, ops[|rs|]);
      if r == Stopped { return rs, Halted, g; }
      PathEnd(u, s1, View(m));
      Joined(g.t, u, s0, s1, View(m));
      ExplainedThen(ops, rs, g, r, u, MemoryOf(m));
      g := Extend(g, u, MemoryOf(m));
      rs := rs + [r];
    }
    PathEnd(g.t, s0, View(m));
    end := AllDone;
  }

  lemma StayPath(s: Cow.Lazy)
    ensures Path(Stay(s), s, s)
  {}

  lemma NothingYet(ops: seq<Op>, s: Cow.Lazy, mem: Memory)
    requires mem.pt == s.pt
    ensures Explained(ops, [], Log(Stay(s), [0], [mem]))
  {}

  lemma PathEnd(t: Trace, s: Cow.Lazy, s': Cow.Lazy)
    requires Path(t, s, s')
    ensures |t.states| == |t.acts| + 1 && t.states[0] == s && t.states[|t.acts|] == s'
  {}
}
