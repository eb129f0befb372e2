/** Runs from boot, and what programs can see of them. */
module VmBoot {
  // Whatever list of operations the kernel carries out from boot on is that list on the machine that copies at fork;
  // no page is ever gone but by a refused sys_mem_alloc; and a list that memory suffices for is carried out in full.

  import opened Mmu
  import opened Pmap
  import opened Tlb
  import opened EnvVmm
  import opened SyscallMem
  import opened ForkLib
  import opened Counts
  import opened VmRun
  import Cow

  /** The first environment; memory must hold its directory. */
  method Boot(npage: nat, boot: nat, mem: seq<Frame>, e: nat) returns (m: Machine)
    requires boot < npage == |mem| <= 0x10_0000
    ensures fresh(m) && Good(m) && m.npage == npage && View(m).pt == map[]
    ensures MemoryOf(m) == Memory(npage - boot - 1, {}, {e}, 0, map[]) && false in m.asidUsed
  {
    hide WalkOk, RolesOk, TlbOk, WindowOk, FewRoles, DataKept;
    m := new Machine(npage, boot, mem);
    ghost var role := m.role;
    assert boot in m.freeList && m.asidUsed[0] == false;
    var r := EnvAlloc(m, e, 0);
    LostSame(role, m.role, m.npage);
    assert !m.asidUsed[if r.asid == 0 then 1 else 0];
    Cow.InitInv(View(m));
  }

  // ---- the same operations on the machine that copies at fork ----

  /** The eager machine with the page of an access there. */
  ghost function Paged(t: Cow.Eager, op: Op): Cow.Eager {
    if (op.OpLoad? || op.OpStore?) && Cow.UserVpn(Vpn(op.va)) && (op.e, Vpn(op.va)) !in t.page
    then Cow.Collect(t.page[(op.e, Vpn(op.va)) := Cow.Private(ZeroFrame(), true)], t.obj)
    else t
  }

  /** The operation with this outcome on the eager machine: a page on first touch, then its own step. */
  ghost predicate EagerOp(t: Cow.Eager, t': Cow.Eager, op: Op, r: Outcome) {
    (op.OpLoad? ==> r.Value?) && Cow.EagerStep(Paged(t, op), t', Own(op, r))
  }

  /** The copy-on-write handler is invisible. */
  lemma {:induction false} Quiet(eager: seq<Cow.Eager>, acts: seq<Cow.Act>, n: nat)
    requires Cow.EagerRun(eager, acts) && n <= |acts|
    requires forall i :: 0 <= i < n ==>
      acts[i].FaultAlloc? || acts[i].FaultCopy? || acts[i].FaultMap? || acts[i].FaultUnmap?
    ensures eager[n] == eager[0]
  {
    if n > 0 {
      Quiet(eager, acts, n - 1);
      assert Cow.EagerStep(eager[n - 1], eager[n], acts[n - 1]);
    }
  }

  lemma HandlerQuiet(e: int, v: int, i: nat)
    requires i < |HandlerActs(e, v)|
    ensures var a := HandlerActs(e, v)[i]; a.FaultAlloc? || a.FaultCopy? || a.FaultMap? || a.FaultUnmap?
  {
  }

  /** An operation's steps, on the eager machine, are the operation itself. */
  lemma SegmentIsOp(s: Cow.Lazy, op: Op, r: Outcome, eager: seq<Cow.Eager>, acts: seq<Cow.Act>)
    requires Cow.InMem(s) && (op.OpLoad? ==> r.Value?)
    requires Cow.EagerRun(eager, acts) && acts == Segment(s.pt, op, r) && eager[0] == Cow.Abs(s)
    ensures EagerOp(eager[0], eager[|acts|], op, r)
  {
    var n := |acts| - 1;
    hide HandlerActs, Cow.AbsObjs, Cow.AbsPage;
    assert acts[n] == Own(op, r) && Cow.EagerStep(eager[n], eager[n + 1], acts[n]);
    if n == 0 {
      assert Paged(eager[0], op) == eager[0];
    } else if (op.e, Vpn(op.va)) !in s.pt {
      assert n == 1 && Cow.EagerStep(eager[0], eager[1], acts[0]);
      assert Paged(eager[0], op) == eager[1];
    } else {
      assert acts[..n] == HandlerActs(op.e, Vpn(op.va));
      forall i | 0 <= i < n
        ensures acts[i].FaultAlloc? || acts[i].FaultCopy? || acts[i].FaultMap? || acts[i].FaultUnmap?
      {
        HandlerQuiet(op.e, Vpn(op.va), i);
        assert acts[i] == acts[..n][i];
      }
      Quiet(eager, acts, n);
    }
  }

  /** What the eager machine is at the beginning of each operation, and at the end. */
  ghost function EagerStates(g: Log): seq<Cow.Eager>
    requires forall i :: 0 <= i < |g.t.states| ==> Cow.InMem(g.t.states[i])
    requires forall i :: 0 <= i < |g.cuts| ==> g.cuts[i] < |g.t.states|
  {
    seq(|g.cuts|, i requires 0 <= i < |g.cuts| => Cow.AbsRun(g.t.states)[g.cuts[i]])
  }

  /**
    From empty address spaces on, the operations with their outcomes are a run of the machine that copies every
    page at fork: the kernel's reference counts, TLB and copy-on-write pages are not observable.
   */
  lemma NotObservable(ops: seq<Op>, rs: seq<Outcome>, g: Log, s0: Cow.Lazy, s: Cow.Lazy)
    requires Explained(ops, rs, g) && Path(g.t, s0, s) && s0.pt == map[] && s0.phase == map[]
    ensures forall i :: 0 <= i < |g.t.states| ==> Cow.InMem(g.t.states[i])
    ensures forall i :: 0 <= i < |g.cuts| ==> g.cuts[i] < |g.t.states|
    ensures var eager := EagerStates(g);
      && eager[0] == Cow.Eager(map[], map[]) && eager[|rs|] == Cow.Abs(s)
      && forall i :: 0 <= i < |rs| ==> EagerOp(eager[i], eager[i + 1], ops[i], rs[i])
  {
    hide *;
    EmptyStart(g.t, s0, s);
    Cow.CowRefinesEager(g.t.states, g.t.acts);
    var all := Cow.AbsRun(g.t.states);
    CutsInside(ops, rs, g);
    StatesAt(g);
    forall i | 0 <= i < |rs| ensures EagerOp(all[g.cuts[i]], all[g.cuts[i + 1]], ops[i], rs[i]) {
      OneOp(ops[i], rs[i], g, all, i);
    }
  }

  lemma EmptyStart(t: Trace, s0: Cow.Lazy, s: Cow.Lazy)
    requires Path(t, s0, s)
    ensures |t.states| == |t.acts| + 1 && Cow.Run(t.states, t.acts) && t.states[0] == s0 && t.states[|t.acts|] == s
  {
    hide Cow.Run;
  }

  lemma CutsInside(ops: seq<Op>, rs: seq<Outcome>, g: Log)
    requires Explained(ops, rs, g)
    ensures |rs| <= |ops| && |g.t.states| == |g.t.acts| + 1 && |g.cuts| == |rs| + 1 && g.cuts[0] == 0
    ensures g.cuts[|rs|] == |g.t.acts|
    ensures forall i :: 0 <= i < |rs| ==> Segmented(ops[i], rs[i], g, i)
    ensures forall i :: 0 <= i < |g.cuts| ==> g.cuts[i] < |g.t.states|
  {
    hide Yields, Segment;
    forall i | 0 <= i < |g.cuts| ensures g.cuts[i] < |g.t.states| {
      if i < |rs| { assert Segmented(ops[i], rs[i], g, i); }
    }
  }

  lemma StatesAt(g: Log)
    requires forall i :: 0 <= i < |g.t.states| ==> Cow.InMem(g.t.states[i])
    requires forall i :: 0 <= i < |g.cuts| ==> g.cuts[i] < |g.t.states|
    ensures var all := Cow.AbsRun(g.t.states);
      && |all| == |g.t.states| && (forall i :: 0 <= i < |all| ==> all[i] == Cow.Abs(g.t.states[i]))
      && |EagerStates(g)| == |g.cuts| && forall i :: 0 <= i < |g.cuts| ==> EagerStates(g)[i] == all[g.cuts[i]]
  {
    hide Cow.InMem, Cow.Abs;
  }

  lemma OneOp(op: Op, r: Outcome, g: Log, all: seq<Cow.Eager>, i: nat)
    requires Segmented(op, r, g, i) && Cow.EagerRun(all, g.t.acts) && |all| == |g.t.states|
    requires Cow.InMem(g.t.states[g.cuts[i]]) && all[g.cuts[i]] == Cow.Abs(g.t.states[g.cuts[i]])
    ensures EagerOp(all[g.cuts[i]], all[g.cuts[i + 1]], op, r)
  {
    hide Cow.InMem, Cow.Abs, Cow.EagerRun, Segment, EagerOp, Stops;
    var lo, hi := g.cuts[i], g.cuts[i + 1];
    EagerPart(all, g.t.acts, lo, hi);
    SegmentIsOp(g.t.states[lo], op, r, all[lo..hi + 1], g.t.acts[lo..hi]);
  }

  lemma EagerPart(eager: seq<Cow.Eager>, acts: seq<Cow.Act>, lo: nat, hi: nat)
    requires Cow.EagerRun(eager, acts) && lo <= hi <= |acts|
    ensures Cow.EagerRun(eager[lo..hi + 1], acts[lo..hi])
  {
    hide Cow.EagerStep;
    forall j | 0 <= j < hi - lo ensures Cow.EagerStep(eager[lo..hi + 1][j], eager[lo..hi + 1][j + 1], acts[lo..hi][j]) {
      assert Cow.EagerStep(eager[lo + j], eager[lo + j + 1], acts[lo + j]);
    }
  }

  // ---- pages over a run ----

  /**
    Over any run no page is gone: what is free, mapped, a table or a directory is as much as at the start, but for
    the page that a refused sys_mem_alloc may lose.
   */
  lemma {:induction false} NoPageGone(ops: seq<Op>, rs: seq<Outcome>, g: Log, i: nat)
    requires Explained(ops, rs, g) && i <= |rs|
    ensures Total(g.memory[i]) == Total(g.memory[0]) && g.memory[i].lost >= g.memory[0].lost
    ensures (forall j :: 0 <= j < i ==> rs[j] != Code(-E_NO_MEM)) ==> g.memory[i].lost == g.memory[0].lost
  {
    hide Total, Yields, Segment, TablesAfter, PtMoves;
    if i > 0 {
      NoPageGone(ops, rs, g, i - 1);
      assert Segmented(ops[i - 1], rs[i - 1], g, i - 1);
    }
  }

  /** The pages an operation takes at most: a page and its table; for a fork, a directory and all tables. */
  function Need(op: Op): nat {
    match op
    case OpLoad(_, _, _) => 2
    case OpStore(_, _, _, _) => 2
    case OpAlloc(_, _, _) => 2
    case OpShare(_, _, _, _, _) => 1
    case OpUnmap(_, _) => 0
    case OpFork(_, _, _) => 1 + NPD
    case OpExit(_) => 0
  }

  function Budget(ops: seq<Op>): nat {
    if ops == [] then 0 else Budget(ops[..|ops| - 1]) + Need(ops[|ops| - 1])
  }

  function Forks(ops: seq<Op>): nat {
    if ops == [] then 0 else Forks(ops[..|ops| - 1]) + if ops[|ops| - 1].OpFork? then 1 else 0
  }

  lemma PagesMore(pt: PageTable, k: (nat, nat), w: Word)
    ensures |PagesOf(pt[k := w])| <= |PagesOf(pt)| + 1
    ensures w.hi in PagesOf(pt) ==> |PagesOf(pt[k := w])| <= |PagesOf(pt)|
  {
    var pt' := pt[k := w];
    forall p | p in PagesOf(pt') ensures p in PagesOf(pt) + {w.hi} {
      var l :| l in pt' && pt'[l].hi == p;
      if l != k { assert l in pt && pt[l].hi == p; }
    }
    SubsetSize(PagesOf(pt'), PagesOf(pt) + {w.hi});
    if w.hi in PagesOf(pt) { assert PagesOf(pt) + {w.hi} == PagesOf(pt); }
  }

  lemma PagesFewer(pt: PageTable, pt': PageTable)
    requires forall k :: k in pt' ==> exists l :: l in pt && pt[l].hi == pt'[k].hi
    ensures |PagesOf(pt')| <= |PagesOf(pt)|
  {
    assert PagesOf(pt') <= PagesOf(pt);
    SubsetSize(PagesOf(pt'), PagesOf(pt));
  }

  /** An operation maps at most one page more. */
  lemma PagesAfter(pt: PageTable, pt': PageTable, op: Op, r: Outcome, p: Hi)
    requires PtMoves(pt, pt', op, r, p)
    ensures |PagesOf(pt')| <= |PagesOf(pt)| +
      if op.OpLoad? || op.OpStore? || (op.OpAlloc? && r == Code(0)) then 1 else 0
  {
    hide PagesOf;
    match op {
      case OpLoad(e, va, _) => PagesMore(pt, (e, Vpn(va)), Word(p, DEMAND));
      case OpStore(e, va, _, _) =>
        var k := (e, Vpn(va));
        PagesMore(pt, k, Word(p, if k in pt then pt[k].lo.(cow := false, d := true) else DEMAND));
      case OpAlloc(e, va, perm) => PagesMore(pt, (e, Vpn(va)), Word(p, perm.(v := true)));
      case OpShare(e, va, e2, va2, perm) =>
        if (e, Vpn(va)) in pt {
          var w := Word(pt[(e, Vpn(va))].hi, perm.(v := true));
          NamedPage(pt, (e, Vpn(va)));
          PagesMore(pt, (e2, Vpn(va2)), w);
        }
      case OpUnmap(e, va) =>
        forall k | k in pt' ensures k in pt && pt[k].hi == pt'[k].hi {}
        PagesFewer(pt, pt');
      case OpFork(e, child, _) => ForkPages(pt, pt', e, child);
      case OpExit(e) =>
        forall k | k in pt' ensures k in pt && pt[k].hi == pt'[k].hi {}
        PagesFewer(pt, pt');
    }
  }

  lemma NamedPage(pt: PageTable, k: (nat, nat))
    requires k in pt
    ensures pt[k].hi in PagesOf(pt)
  {}

  lemma ForkPages(pt: PageTable, pt': PageTable, e: nat, child: nat)
    requires pt' == Cow.ForkPt(pt, e, child)
    ensures |PagesOf(pt')| <= |PagesOf(pt)|
  {
    forall k | k in pt' ensures exists l :: l in pt && pt[l].hi == pt'[k].hi {
      if k.0 == child && (e, k.1) in pt && pt'[k].hi == pt[(e, k.1)].hi {
      } else {
        assert k in pt && pt[k].hi == pt'[k].hi;
      }
    }
    hide Cow.ForkPt;
    PagesFewer(pt, pt');
  }

  lemma WindowsSize(pt: PageTable, e: nat)
    ensures |Windows(pt, e, USTACK_VPN)| <= NPD
  {
    hide Below;
    assert Windows(pt, e, USTACK_VPN) <= Below(NPD);
    SubsetSize(Windows(pt, e, USTACK_VPN), Below(NPD));
  }

  lemma {:induction false} ChildTablesSize(child: nat, windows: set<nat>)
    ensures |ChildTables(child, windows)| <= |windows|
  {
    if i :| i in windows {
      ChildTablesSize(child, windows - {i});
      assert ChildTables(child, windows) == ChildTables(child, windows - {i}) + {(child, i)};
    } else {
      assert ChildTables(child, windows) == {};
    }
  }

  lemma TablesMore(s: Memory, op: Op, r: Outcome)
    ensures |TablesAfter(s, op, r)| <= |s.tables| + match op {
      case OpLoad(_, _, _) => 1
      case OpStore(_, _, _, _) => 1
      case OpAlloc(_, _, _) => if r == Code(0) then 1 else 0
      case OpShare(_, _, _, _, _) => 1
      case OpUnmap(_, _) => 0
      case OpFork(_, _, _) => NPD
      case OpExit(_) => 0 }
  {
    match op {
      case OpFork(e, child, _) =>
        WindowsSize(s.pt, e);
        ChildTablesSize(child, Windows(s.pt, e, USTACK_VPN));
        hide ChildTables, Windows;
      case OpExit(e) => SubsetSize(TablesAfter(s, op, r), s.tables);
      case _ =>
    }
  }

  /** An operation takes no more pages than it may need. */
  lemma FreeDrops(s: Memory, s': Memory, op: Op, r: Outcome)
    requires Evolves(s, s', op, r)
    ensures s'.free + Need(op) >= s.free
    ensures |s'.envs| <= |s.envs| + if op.OpFork? then 1 else 0
  {
    var p: Hi :| PtMoves(s.pt, s'.pt, op, r, p);
    PagesAfter(s.pt, s'.pt, op, r, p);
    TablesMore(s, op, r);
    hide PtMoves, TablesAfter, PagesOf;
    if op.OpExit? { ExitFrees(s, s', op, r); }
  }

  lemma ExitFrees(s: Memory, s': Memory, op: Op, r: Outcome)
    requires Evolves(s, s', op, r) && op.OpExit?
    ensures |s'.tables| <= |s.tables| && |s'.envs| <= |s.envs| && s'.lost == s.lost
  {
    SubsetSize(s'.tables, s.tables);
    SubsetSize(s'.envs, s.envs);
  }

  /** The operation has no reason to stop but memory or ASIDs. */
  predicate Lawful(pt: PageTable, op: Op) {
    match op
    case OpLoad(e, va, _) => (e, Vpn(va)) in pt || !NoDemand(va)
    case OpStore(e, va, _, _) =>
      if (e, Vpn(va)) in pt then pt[(e, Vpn(va))].lo.d || pt[(e, Vpn(va))].lo.cow else !NoDemand(va)
    case OpShare(e, va, _, _, _) => (e, Vpn(va)) in pt ==> pt[(e, Vpn(va))].lo.lib
    case _ => true
  }

  lemma StopsFor(s: Memory, op: Op)
    requires Stops(s, op) && Lawful(s.pt, op)
    ensures s.free < Need(op) || (op.OpFork? && |s.envs| >= NASID)
  {
    if op.OpFork? { WindowsSize(s.pt, op.e); }
  }

  /** After i operations, what is left of free pages and ASIDs. */
  lemma {:induction false} LeftAfter(ops: seq<Op>, rs: seq<Outcome>, g: Log, i: nat)
    requires Explained(ops, rs, g) && i <= |rs|
    ensures g.memory[i].free + Budget(ops[..i]) >= g.memory[0].free
    ensures |g.memory[i].envs| <= |g.memory[0].envs| + Forks(ops[..i])
  {
    hide Yields, Segment, Evolves, Need;
    if i > 0 {
      LeftAfter(ops, rs, g, i - 1);
      assert Segmented(ops[i - 1], rs[i - 1], g, i - 1);
      FreeDrops(g.memory[i - 1], g.memory[i], ops[i - 1], rs[i - 1]);
      assert ops[..i][..i - 1] == ops[..i - 1];
    }
  }

  lemma {:induction false} BudgetMore(ops: seq<Op>, i: nat)
    requires i < |ops|
    ensures Budget(ops[..i]) + Need(ops[i]) <= Budget(ops)
    ensures Forks(ops[..i]) + (if ops[i].OpFork? then 1 else 0) <= Forks(ops)
    decreases |ops|
  {
    hide Need;
    var init := ops[..|ops| - 1];
    if i < |ops| - 1 {
      BudgetMore(init, i);
      assert init[..i] == ops[..i];
    }
  }

  /** A run with enough free pages and ASIDs at its start stops only at an operation that has another reason to. */
  lemma Enough(ops: seq<Op>, rs: seq<Outcome>, g: Log, npage: nat)
    requires Explained(ops, rs, g) && EndsAs(ops, |rs|, g.memory[|rs|], npage, Halted)
    requires Budget(ops) <= g.memory[0].free && |g.memory[0].envs| + Forks(ops) <= NASID
    ensures !Lawful(g.memory[|rs|].pt, ops[|rs|])
  {
    hide Explained, Need, Stops, Lawful;
    var i := |rs|;
    ExplainedSizes(ops, rs, g);
    LeftAfter(ops, rs, g, i);
    BudgetMore(ops, i);
    if Lawful(g.memory[i].pt, ops[i]) { StopsFor(g.memory[i], ops[i]); }
  }

  lemma ExplainedSizes(ops: seq<Op>, rs: seq<Outcome>, g: Log)
    requires Explained(ops, rs, g)
    ensures |g.cuts| == |g.memory| == |rs| + 1 <= |ops| + 1 && |g.t.states| == |g.t.acts| + 1
  {
    hide At, Segmented;
  }

  // ---- lists that are carried out in full ----

  /** Loads and stores where pages are given, sys_mem_alloc of writable pages, sys_mem_unmap, fork and exit. */
  predicate Plain(op: Op) {
    match op
    case OpLoad(_, va, _) => !NoDemand(va)
    case OpStore(_, va, _, _) => !NoDemand(va)
    case OpAlloc(_, _, perm) => perm.d
    case OpShare(_, _, _, _, _) => false
    case _ => true
  }

  function EnvsOf(envs: set<nat>, ops: seq<Op>): set<nat> {
    if ops == [] then envs else EnvsAfter(EnvsOf(envs, ops[..|ops| - 1]), ops[|ops| - 1])
  }

  /** Every operation names live environments, and a fork a new one. */
  predicate AllReady(envs: set<nat>, npage: nat, ops: seq<Op>) {
    forall i :: 0 <= i < |ops| ==> Ready(EnvsOf(envs, ops[..i]), npage, ops[i])
  }

  /** Every page is writable, at once or after a copy. */
  ghost predicate Writable(pt: PageTable) {
    forall k :: k in pt ==> pt[k].lo.d || pt[k].lo.cow
  }

  lemma PlainStep(s: Memory, s': Memory, op: Op, r: Outcome)
    requires Evolves(s, s', op, r) && Plain(op) && Writable(s.pt)
    ensures Writable(s'.pt)
  {
    var p: Hi :| PtMoves(s.pt, s'.pt, op, r, p);
    if op.OpFork? { ForkWritable(s.pt, s'.pt, op.e, op.child); }
  }

  lemma ForkWritable(pt: PageTable, pt': PageTable, e: nat, child: nat)
    requires Writable(pt) && pt' == Cow.ForkPt(pt, e, child)
    ensures Writable(pt')
  {
    forall k | k in pt' ensures pt'[k].lo.d || pt'[k].lo.cow {
      if k.0 == child && (e, k.1) in pt && pt'[k] == Cow.CowPte(pt[(e, k.1)]) {
      } else {
        assert k in pt && (pt'[k] == pt[k] || pt'[k] == Cow.CowPte(pt[k]));
      }
    }
  }

  lemma {:induction false} PlainSoFar(ops: seq<Op>, rs: seq<Outcome>, g: Log, i: nat)
    requires Explained(ops, rs, g) && i <= |rs| && Writable(g.memory[0].pt)
    requires forall j :: 0 <= j < |ops| ==> Plain(ops[j])
    ensures Writable(g.memory[i].pt) && g.memory[i].envs == EnvsOf(g.memory[0].envs, ops[..i])
  {
    hide Yields, Segment, PtMoves, Writable, Total, Plain;
    if i > 0 {
      PlainSoFar(ops, rs, g, i - 1);
      assert Segmented(ops[i - 1], rs[i - 1], g, i - 1);
      PlainStep(g.memory[i - 1], g.memory[i], ops[i - 1], rs[i - 1]);
      assert ops[..i][..i - 1] == ops[..i - 1];
    }
  }

  /** A plain list, ready throughout, with enough pages and ASIDs, is carried out in full. */
  lemma PlainRuns(ops: seq<Op>, rs: seq<Outcome>, g: Log, npage: nat, end: End)
    requires Explained(ops, rs, g) && |g.memory| == |rs| + 1 && EndsAs(ops, |rs|, g.memory[|rs|], npage, end)
    requires Budget(ops) <= g.memory[0].free && |g.memory[0].envs| + Forks(ops) <= NASID
    requires Writable(g.memory[0].pt) && AllReady(g.memory[0].envs, npage, ops)
    requires forall j :: 0 <= j < |ops| ==> Plain(ops[j])
    ensures end == AllDone && |rs| == |ops|
  {
    hide Explained, Budget, Stops, Writable;
    var i := |rs|;
    PlainSoFar(ops, rs, g, i);
    if i < |ops| {
      assert Ready(EnvsOf(g.memory[0].envs, ops[..i]), npage, ops[i]) && Plain(ops[i]);
      assert Lawful(g.memory[i].pt, ops[i]) by { PlainLawful(g.memory[i].pt, ops[i]); }
      if end == Halted { Enough(ops, rs, g, npage); }
    }
  }

  lemma PlainLawful(pt: PageTable, op: Op)
    requires Plain(op) && Writable(pt)
    ensures Lawful(pt, op)
  {}

  // ---- from boot ----

  /** A plain list whose environments are there when they are named, and for which pages and ASIDs suffice. */
  predicate CarriedOut(npage: nat, boot: nat, e: nat, ops: seq<Op>) {
    && (forall j :: 0 <= j < |ops| ==> Plain(ops[j])) && AllReady({e}, npage, ops)
    && Budget(ops) < npage - boot && Forks(ops) < NASID
  }

  /**
    The kernel from boot: each operation that was carried out has the outcome and the effect it has on the machine
    that copies at fork; what it yields, and what becomes of memory, follows from npage, boot and the list. In
    particular a plain list that memory suffices for is carried out in full.
   */
  method FromBoot(npage: nat, boot: nat, mem: seq<Frame>, e: nat, ops: seq<Op>)
    returns (m: Machine, rs: seq<Outcome>, end: End, ghost eager: seq<Cow.Eager>, ghost g: Log)
    requires boot < npage == |mem| <= 0x10_0000
    ensures Explained(ops, rs, g) && |rs| <= |ops| && |eager| == |g.memory| == |rs| + 1
    ensures g.memory[0] == Memory(npage - boot - 1, {}, {e}, 0, map[]) && eager[0] == Cow.Eager(map[], map[])
    ensures forall i :: 0 <= i < |rs| ==> EagerOp(eager[i], eager[i + 1], ops[i], rs[i])
    ensures EndsAs(ops, |rs|, g.memory[|rs|], npage, end)
    ensures end != Halted ==> Good(m) && g.memory[|rs|] == MemoryOf(m) && eager[|rs|] == Cow.Abs(View(m))
    ensures CarriedOut(npage, boot, e, ops) ==> end == AllDone
  {
    hide WalkOk, RolesOk, AsidsOk, TlbOk, WindowOk, Cow.Inv, Path, Segment, Stops, EagerOp, Explained, Cow.Abs, Plain;
    hide AllReady;
    hide Budget, Forks;
    m := Boot(npage, boot, mem, e);
    ghost var s0 := View(m);
    rs, end, g := Run(m, ops);
    ExplainedSizes(ops, rs, g);
    NotObservable(ops, rs, g, s0, g.t.states[|g.t.acts|]);
    if end != Halted { PathEnd(g.t, s0, View(m)); }
    eager := EagerStates(g);
    if CarriedOut(npage, boot, e, ops) { PlainRuns(ops, rs, g, npage, end); }
  }

  // ---- outside the theorem ----

  const DIRTY: Flags := NOFLAGS.(d := true, cow := true)

  /** Boot, then sys_mem_alloc with PTE_D and PTE_COW. `s` is the state between. */
  method DirtyPage(npage: nat, boot: nat, mem: seq<Frame>, va: nat) returns (m: Machine, ghost s: Cow.Lazy)
    requires boot + 5 <= npage == |mem| <= 0x10_0000 && va < UTOP && Cow.UserVpn(Vpn(va))
    ensures fresh(m) && m.Valid() && m.npage == npage && m.envs.Keys == {0} && |m.freeList| >= 2 && false in m.asidUsed
    ensures s.pt == map[] && s.phase == map[] && m.pt.Keys == {(0, Vpn(va))}
    ensures Cow.FreshPage(s, View(m), (0, Vpn(va)), DIRTY.(v := true))
  {
    hide WalkOk, RolesOk, AsidsOk, TlbOk, WindowOk, DataKept, FewRoles, Cow.Inv, Cow.Keep, Cow.Used;
    m := Boot(npage, boot, mem, 0);
    s := View(m);
    ghost var pt, role := m.pt, m.role;
    ghost var ppRef, freeList, envs, tabs := m.ppRef, m.freeList, m.envs, m.tabs;
    FreeUnused(m.ppRef, m.freeList, m.envs, m.tabs, m.pt, m.role);
    var x := SysMemAlloc(m, va, DIRTY, 0);
    KeepData(m, s.mem, pt, role, ppRef, freeList, envs, tabs);
  }

  /**
    A page asked for with PTE_D and PTE_COW together stays writable on both sides of a fork: from boot, allocate
    it, fork, store `w` in the child, and the parent reads `w`. The states in `t` are those after each call.
   */
  method DirtyCowShared(npage: nat, boot: nat, mem: seq<Frame>, va: nat, w: Word)
    returns (m: Machine, r: Loaded, ghost t: seq<Cow.Lazy>)
    requires boot + 5 <= npage == |mem| <= 0x10_0000 && va < UTOP && Cow.UserVpn(Vpn(va))
    ensures r == Loaded(w) && |t| == 4 && t[3] == View(m)
    ensures t[0].pt == map[] && t[0].phase == map[] && Cow.FreshPage(t[0], t[1], (0, Vpn(va)), DIRTY.(v := true))
    ensures Cow.Step(t[1], t[2], Cow.Act.Fork(0, 1))
    ensures Cow.Step(t[2], t[3], Cow.Write(1, Vpn(va), Offset(va), w))
    ensures Cow.Step(t[3], t[3], Cow.Read(0, Vpn(va), Offset(va), w))
  {
    hide WalkOk, RolesOk, AsidsOk, TlbOk, WindowOk, Cow.FreshPage, Cow.Step;
    ghost var s0;
    m, s0 := DirtyPage(npage, boot, mem, va);
    ghost var s1 := View(m);
    DirtyEntry(s0, s1, Vpn(va));
    DirtyFork(m, Vpn(va));
    ghost var s2 := View(m);
    var s := Store(m, va, w, {}, 1, m.envs[1].pgdir, m.envs[1].asid);
    WriteStep(s2, View(m), 1, Vpn(va), Offset(va), w);
    t := [s0, s1, s2, View(m)];
    r := Load(m, va, {}, 0, m.envs[0].pgdir, m.envs[0].asid);
    ReadStep(View(m), 0, Vpn(va), Offset(va), w);
  }

  /** fork with one page, which stays writable on both sides. */
  method DirtyFork(m: Machine, v: nat)
    requires m.Valid() && 0 < m.npage && m.envs.Keys == {0} && |m.freeList| >= 2 && false in m.asidUsed
    requires Cow.UserVpn(v) && m.pt.Keys == {(0, v)} && m.pt[(0, v)].lo == DIRTY.(v := true)
    modifies m`mem, m`ppRef, m`freeList, m`tlb, m`asidUsed, m`envs, m`tabs, m`pt, m`role, m`owner
    ensures m.Valid() && 0 in m.envs && 1 in m.envs
    ensures Cow.Step(old(View(m)), View(m), Cow.Act.Fork(0, 1))
    ensures (0, v) in m.pt && (1, v) in m.pt && m.pt[(0, v)] == m.pt[(1, v)] == old(m.pt)[(0, v)]
  {
    hide WalkOk, RolesOk, AsidsOk, TlbOk, WindowOk, FewRoles, DataKept, Cow.Step;
    WindowOfOne(m.pt, v);
    var made, ok := Fork(m, 0, 1, 0);
    ForkStepPt(old(View(m)), View(m), 0, 1);
    BothSides(old(m.pt), m.pt, v);
    assert 0 in m.envs.Keys && 1 in m.envs.Keys;
  }

  lemma DirtyEntry(s: Cow.Lazy, s': Cow.Lazy, v: nat)
    requires Cow.FreshPage(s, s', (0, v), DIRTY.(v := true))
    ensures (0, v) in s'.pt && s'.pt[(0, v)].lo == DIRTY.(v := true)
  {}

  lemma ReadStep(s: Cow.Lazy, e: nat, v: nat, off: nat, w: Word)
    requires s.phase == map[] && Cow.UserVpn(v) && (e, v) in s.pt && s.pt[(e, v)].hi < |s.mem|
    requires off < NPTE && s.mem[s.pt[(e, v)].hi][off] == w
    ensures Cow.Step(s, s, Cow.Read(e, v, off, w))
  {}

  lemma BothSides(pt: PageTable, pt': PageTable, v: nat)
    requires pt.Keys == {(0, v)} && Cow.UserVpn(v) && pt[(0, v)].lo.d && pt[(0, v)].lo.cow
    requires pt' == Cow.ForkPt(pt, 0, 1)
    ensures (0, v) in pt' && (1, v) in pt' && pt'[(0, v)] == pt'[(1, v)] == pt[(0, v)]
  {
    hide Cow.SweepPt;
    Cow.SweepAt(pt, 0, 1, USTACK_VPN, (0, v));
    Cow.SweepAt(pt, 0, 1, USTACK_VPN, (1, v));
  }

  lemma WindowOfOne(pt: PageTable, v: nat)
    requires pt.Keys == {(0, v)}
    ensures |Windows(pt, 0, USTACK_VPN)| <= 1 && forall k :: k in pt ==> k.1 == v
  {
    assert Windows(pt, 0, USTACK_VPN) <= {Pdx(v)};
    if Windows(pt, 0, USTACK_VPN) != {} {
      assert Windows(pt, 0, USTACK_VPN) == {Pdx(v)};
    }
  }

  /** The machine that copies at fork cannot do the same: there the parent reads what it had. */
  lemma DirtyCowNotEager(t0: Cow.Eager, t1: Cow.Eager, t2: Cow.Eager, v: nat, off: nat, w: Word, x: Word)
    requires Cow.UserVpn(v) && off < NPTE && t0.page == map[(0, v) := Cow.Private(ZeroFrame(), true)]
    requires Cow.EagerStep(t0, t1, Cow.Act.Fork(0, 1)) && Cow.EagerStep(t1, t2, Cow.Write(1, v, off, w))
    requires Cow.EagerStep(t2, t2, Cow.Read(0, v, off, x))
    ensures x == ZERO
  {
    assert t1.page[(0, v)] == t0.page[(0, v)];
  }
}
