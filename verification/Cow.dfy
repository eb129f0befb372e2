/** Copy-on-write fork refines eager copying. */
module Cow {
  // The lazy machine is what the kernel and user/lib/fork.c do: flat page tables over shared physical pages. The
  // eager machine gives every environment its own copy of each page at fork, except the pages marked
  // PTE_LIBRARY, which are shared objects. Every lazy step is an eager step with the same observations; the
  // steps of the copy-on-write handler are invisible.

  import opened Mmu

  type Key = (int, int)   // environment, virtual page number

  // Where an environment is in cow_entry for the faulting page `vpn`: copying (n words done so far)
  // into the page at UCOW, or mapped at `vpn` with UCOW still to be unmapped.
  datatype Phase = Idle | Copying(vpn: int, n: int) | Remapped(vpn: int)

  datatype Lazy = Lazy(pt: map<Key, Word>, mem: seq<Frame>, phase: map<int, Phase>)
  {
    function PhaseOf(e: int): Phase {
      if e in phase then phase[e] else Idle
    }
  }

  datatype Act =
    | Read(e: int, v: int, off: int, w: Word)
    | Write(e: int, v: int, off: int, w: Word)
    | Alloc(e: int, v: int, lo: Flags)
    | Share(e: int, v: int, e2: int, v2: int, lo: Flags)
    | Unmap(e: int, v: int)
    | Fork(e: int, child: int)
    | Exit(e: int)
    | FaultAlloc(e: int, v: int)
    | FaultCopy(e: int)
    | FaultMap(e: int)
    | FaultUnmap(e: int)
    | Skip   // a call that was refused

  /** The pages of a program: fork copies them; UCOW and the exception stack are the library's own. */
  predicate UserVpn(v: int) {
    UTEMP_VPN <= v < USTACK_VPN && v != UCOW_VPN
  }

  ghost predicate Used(pt: map<Key, Word>, p: int) {
    exists k :: k in pt && pt[k].hi == p
  }

  // ---- the lazy machine ----

  /** Pages mapped before and after keep their contents. */
  ghost predicate Keep(s: Lazy, s': Lazy) {
    |s'.mem| == |s.mem| &&
    forall p :: 0 <= p < |s.mem| && Used(s.pt, p) && Used(s'.pt, p) ==> s'.mem[p] == s.mem[p]
  }

  /** `duppage`'s flags for both sides: a writable private page becomes copy-on-write. */
  function CowFlags(lo: Flags): Flags {
    if lo.d && !lo.lib && !lo.cow then lo.(d := false, cow := true) else lo
  }

  function CowPte(w: Word): Word {
    w.(lo := CowFlags(w.lo))
  }

  /** The tables once the sweep of `fork` has passed page `bound`: child and parent entries below it are alike. */
  ghost function SweepPt(pt: map<Key, Word>, e: int, child: int, bound: int): map<Key, Word> {
    var copies: set<Key> := set k | k in pt && k.0 == e && k.1 < bound :: (child, k.1);
    map k | k in pt.Keys + copies ::
      if k in copies then assert (e, k.1) in pt; CowPte(pt[(e, k.1)])
      else if k.0 == e && k.1 < bound then CowPte(pt[k]) else pt[k]
  }

  /** An entry after the sweep, and where it comes from. */
  lemma SweepAt(pt: map<Key, Word>, e: int, child: int, bound: int, k: Key)
    requires e != child && forall v: int :: (child, v) !in pt
    ensures var o := if k.0 == child then (e, k.1) else k; var pt' := SweepPt(pt, e, child, bound);
      && (k in pt' <==> o in pt && (k.0 == child ==> k.1 < bound))
      && (k in pt' ==> pt'[k] == if o.0 == e && k.1 < bound then CowPte(pt[o]) else pt[o])
  {
    if k.0 == child {
      assert k == (child, k.1) && (child, k.1) !in pt;
    }
  }

  ghost function ForkPt(pt: map<Key, Word>, e: int, child: int): map<Key, Word> {
    SweepPt(pt, e, child, USTACK_VPN)
  }

  ghost predicate FreshPage(s: Lazy, s': Lazy, k: Key, lo: Flags) {
    exists p: Hi {:trigger Used(s.pt, p)} :: p < |s.mem| && !Used(s.pt, p) && Keep(s, s')
      && s'.pt == s.pt[k := Word(p, lo)] && s'.mem[p] == ZeroFrame()
  }

  ghost predicate Step(s: Lazy, s': Lazy, a: Act) {
    match a
    case Read(e, v, off, w) =>
      s' == s && s.PhaseOf(e) == Idle && UserVpn(v) && (e, v) in s.pt && s.pt[(e, v)].hi < |s.mem|
      && 0 <= off < NPTE && s.mem[s.pt[(e, v)].hi][off] == w
    case Write(e, v, off, w) =>
      && s.PhaseOf(e) == Idle && v != UCOW_VPN && (e, v) in s.pt && s.pt[(e, v)].hi < |s.mem|
      && 0 <= off < NPTE && s.pt[(e, v)].lo.d
      && s' == s.(mem := s.mem[s.pt[(e, v)].hi := s.mem[s.pt[(e, v)].hi][off := w]])
    case Alloc(e, v, lo) =>
      && s.PhaseOf(e) == Idle && UTEMP_VPN <= v != UCOW_VPN && lo.v && !lo.cow
      && FreshPage(s, s', (e, v), lo) && s'.phase == s.phase
    case Share(e, v, e2, v2, lo) =>
      && s.PhaseOf(e) == Idle && s.PhaseOf(e2) == Idle && UserVpn(v) && UserVpn(v2) && (e, v) in s.pt
      && s.pt[(e, v)].lo.lib && lo.v && lo.lib && !lo.cow
      && s'.pt == s.pt[(e2, v2) := Word(s.pt[(e, v)].hi, lo)] && Keep(s, s') && s'.phase == s.phase
    case Unmap(e, v) =>
      s.PhaseOf(e) == Idle && v != UCOW_VPN && s'.pt == s.pt - {(e, v)} && Keep(s, s') && s'.phase == s.phase
    case Fork(e, child) =>
      && s.PhaseOf(e) == Idle && s.PhaseOf(child) == Idle && e != child && (forall v: int :: (child, v) !in s.pt)
      && s'.pt == ForkPt(s.pt, e, child) && Keep(s, s') && s'.phase == s.phase
    case Exit(e) =>
      s'.pt == (map k | k in s.pt && k.0 != e :: s.pt[k]) && Keep(s, s') && s'.phase == s.phase - {e}
    case FaultAlloc(e, v) =>
      && s.PhaseOf(e) == Idle && UserVpn(v) && (e, v) in s.pt && s.pt[(e, v)].lo.cow
      && FreshPage(s, s', (e, UCOW_VPN), s.pt[(e, v)].lo.(cow := false, d := true))
      && s'.phase == s.phase[e := Copying(v, 0)]
    case FaultCopy(e) =>
      && s.PhaseOf(e).Copying? && var v, n := s.PhaseOf(e).vpn, s.PhaseOf(e).n;
      && 0 <= n < NPTE && (e, v) in s.pt && (e, UCOW_VPN) in s.pt
      && s.pt[(e, v)].hi < |s.mem| && s.pt[(e, UCOW_VPN)].hi < |s.mem|
      && var p, q := s.pt[(e, UCOW_VPN)].hi, s.pt[(e, v)].hi;
      && s'.mem == s.mem[p := s.mem[p][n := s.mem[q][n]]]
      && s'.pt == s.pt && s'.phase == s.phase[e := Copying(v, n + 1)]
    case FaultMap(e) =>
      && s.PhaseOf(e).Copying? && s.PhaseOf(e).n == NPTE && var v := s.PhaseOf(e).vpn;
      && (e, v) in s.pt && (e, UCOW_VPN) in s.pt
      && s'.pt == s.pt[(e, v) := Word(s.pt[(e, UCOW_VPN)].hi, s.pt[(e, v)].lo.(cow := false, d := true))]
      && Keep(s, s') && s'.phase == s.phase[e := Remapped(v)]
    case FaultUnmap(e) =>
      s.PhaseOf(e).Remapped? && s'.pt == s.pt - {(e, UCOW_VPN)} && Keep(s, s') && s'.phase == s.phase - {e}
    case Skip =>
      s'.pt == s.pt && Keep(s, s') && s'.phase == s.phase
  }

  // ---- the eager machine ----

  datatype Page = Private(f: seq<Word>, w: bool) | Library(obj: int, w: bool)
  datatype Eager = Eager(page: map<Key, Page>, obj: map<int, seq<Word>>)

  ghost predicate Named(page: map<Key, Page>, o: int) {
    exists k :: k in page && page[k].Library? && page[k].obj == o
  }

  /** A shared object lasts as long as it is mapped somewhere. */
  ghost function Collect(page: map<Key, Page>, obj: map<int, seq<Word>>): Eager {
    Eager(page, map o | o in obj && Named(page, o) :: obj[o])
  }

  /** A copy for `child` of every page of `e`; a shared object stays the same object. */
  ghost function Copies(page: map<Key, Page>, e: int, child: int): map<Key, Page> {
    map k | k in page && k.0 == e :: (child, k.1) := page[k]
  }

  ghost predicate EagerStep(t: Eager, t': Eager, a: Act) {
    match a
    case Read(e, v, off, w) =>
      && t' == t && (e, v) in t.page
      && match t.page[(e, v)] {
           case Private(f, _) => 0 <= off < |f| && f[off] == w
           case Library(o, _) => o in t.obj && 0 <= off < |t.obj[o]| && t.obj[o][off] == w
         }
    case Write(e, v, off, w) =>
      if !UserVpn(v) then t' == t else (
        && (e, v) in t.page && t.page[(e, v)].w
        && match t.page[(e, v)] {
             case Private(f, _) => 0 <= off < |f| && t' == t.(page := t.page[(e, v) := Private(f[off := w], true)])
             case Library(o, _) =>
               o in t.obj && 0 <= off < |t.obj[o]| && t' == t.(obj := t.obj[o := t.obj[o][off := w]])
           })
    case Alloc(e, v, lo) =>
      if !UserVpn(v) then t' == t
      else if !lo.lib then t' == Collect(t.page[(e, v) := Private(ZeroFrame(), lo.d)], t.obj)
      else (exists o: int {:trigger Named(t.page, o)} ::
              !Named(t.page, o) && t' == Collect(t.page[(e, v) := Library(o, lo.d)], t.obj[o := ZeroFrame()]))
    case Share(e, v, e2, v2, lo) =>
      && (e, v) in t.page && t.page[(e, v)].Library?
      && t' == Collect(t.page[(e2, v2) := Library(t.page[(e, v)].obj, lo.d)], t.obj)
    case Unmap(e, v) =>
      t' == Collect(t.page - {(e, v)}, t.obj)
    case Fork(e, child) =>
      t' == t.(page := t.page + Copies(t.page, e, child))
    case Exit(e) =>
      t' == Collect(map k | k in t.page && k.0 != e :: t.page[k], t.obj)
    case FaultAlloc(_, _) => t' == t
    case FaultCopy(_) => t' == t
    case FaultMap(_) => t' == t
    case FaultUnmap(_) => t' == t
    case Skip => t' == t
  }

  // ---- the refinement mapping ----

  ghost predicate InMem(s: Lazy) {
    forall k :: k in s.pt ==> s.pt[k].hi < |s.mem|
  }

  ghost function AbsPage(s: Lazy, k: Key): Page
    requires InMem(s) && k in s.pt
  {
    var w := s.pt[k];
    if w.lo.lib then Library(w.hi, w.lo.d || w.lo.cow) else Private(s.mem[w.hi], w.lo.d || w.lo.cow)
  }

  ghost function AbsPages(s: Lazy): map<Key, Page>
    requires InMem(s)
  {
    map k | k in s.pt && UserVpn(k.1) :: AbsPage(s, k)
  }

  /** Page `p` is a library page of some program. */
  ghost predicate LibNamed(pt: map<Key, Word>, p: int) {
    exists k :: k in pt && UserVpn(k.1) && pt[k].lo.lib && pt[k].hi == p
  }

  ghost function AbsObjs(s: Lazy): map<int, seq<Word>> {
    map p: int | 0 <= p < |s.mem| && LibNamed(s.pt, p) :: s.mem[p]
  }

  ghost function Abs(s: Lazy): Eager
    requires InMem(s)
  {
    Eager(AbsPages(s), AbsObjs(s))
  }

  // ---- the invariant ----

  /** Two places may share a page only if both are library pages, or neither may write it. */
  ghost predicate MayShare(a: Word, b: Word) {
    (a.lo.lib && b.lo.lib) || (!a.lo.lib && !b.lo.lib && !a.lo.d && !b.lo.d)
  }

  ghost predicate Exclusive(pt: map<Key, Word>) {
    forall k, l {:trigger pt[k], pt[l]} ::
      k in pt && l in pt && k != l && k.1 != UCOW_VPN && l.1 != UCOW_VPN && pt[k].hi == pt[l].hi ==>
        UserVpn(k.1) && UserVpn(l.1) && MayShare(pt[k], pt[l])
  }

  ghost predicate CowClean(pt: map<Key, Word>) {
    forall k {:trigger pt[k]} :: k in pt && k.1 != UCOW_VPN && pt[k].lo.cow ==>
      UserVpn(k.1) && !pt[k].lo.d && !pt[k].lo.lib
  }

  ghost predicate AboveUtemp(pt: map<Key, Word>) {
    forall k {:trigger pt[k]} :: k in pt ==> UTEMP_VPN <= k.1
  }

  /** The page of (e, UCOW) is mapped nowhere else but, once remapped, at the faulting page. */
  ghost predicate HandlerOk(s: Lazy, e: int)
    requires InMem(s)
  {
    match s.PhaseOf(e)
    case Idle => (e, UCOW_VPN) !in s.pt
    case Copying(v, n) =>
      && 0 <= n <= NPTE && UserVpn(v) && (e, v) in s.pt && s.pt[(e, v)].lo.cow && (e, UCOW_VPN) in s.pt
      && (forall k {:trigger s.pt[k]} :: k in s.pt && k != (e, UCOW_VPN) ==> s.pt[k].hi != s.pt[(e, UCOW_VPN)].hi)
      && (forall i :: 0 <= i < n ==> s.mem[s.pt[(e, UCOW_VPN)].hi][i] == s.mem[s.pt[(e, v)].hi][i])
    case Remapped(v) =>
      && UserVpn(v) && (e, v) in s.pt && (e, UCOW_VPN) in s.pt && s.pt[(e, v)].hi == s.pt[(e, UCOW_VPN)].hi
      && s.pt[(e, v)].lo.d && !s.pt[(e, v)].lo.cow && !s.pt[(e, v)].lo.lib
      && (forall k {:trigger s.pt[k]} :: k in s.pt && k != (e, UCOW_VPN) && k != (e, v) ==>
            s.pt[k].hi != s.pt[(e, UCOW_VPN)].hi)
  }

  ghost predicate Inv(s: Lazy) {
    && InMem(s)
    && Exclusive(s.pt)
    && CowClean(s.pt)
    && AboveUtemp(s.pt)
    && forall e: int {:trigger s.PhaseOf(e)} :: HandlerOk(s, e)
  }

  // ---- frames ----

  /** A page mapped in both states has the same contents in both. */
  lemma KeepAt(s: Lazy, s': Lazy, k: Key, k': Key)
    requires InMem(s) && InMem(s') && Keep(s, s')
    requires k in s.pt && k' in s'.pt && s.pt[k].hi == s'.pt[k'].hi
    ensures s'.mem[s'.pt[k'].hi] == s.mem[s.pt[k].hi]
  {
    assert Used(s.pt, s.pt[k].hi) && Used(s'.pt, s.pt[k].hi);
  }

  /** The entries of environments other than `e` name only new pages or pages such entries named before. */
  ghost predicate NoNewSharing(pt: map<Key, Word>, pt': map<Key, Word>, e: int) {
    forall k {:trigger pt'[k]} :: k in pt' && k.0 != e ==>
      !Used(pt, pt'[k].hi) || exists l :: l in pt && l.0 != e && pt[l].hi == pt'[k].hi
  }

  ghost predicate SameEnv(pt: map<Key, Word>, pt': map<Key, Word>, e: int) {
    forall v: int :: ((e, v) in pt <==> (e, v) in pt') && ((e, v) in pt ==> pt[(e, v)] == pt'[(e, v)])
  }

  /** A step that leaves an environment's entries and phase alone leaves its handler alone. */
  lemma HandlerFrame(s: Lazy, s': Lazy, e: int)
    requires InMem(s) && InMem(s') && Keep(s, s') && HandlerOk(s, e)
    requires s'.PhaseOf(e) == s.PhaseOf(e) && SameEnv(s.pt, s'.pt, e) && NoNewSharing(s.pt, s'.pt, e)
    ensures HandlerOk(s', e)
  {
    var ph := s.PhaseOf(e);
    assert (e, UCOW_VPN) in s.pt <==> (e, UCOW_VPN) in s'.pt;
    if !ph.Idle? {
      assert (e, ph.vpn) in s.pt <==> (e, ph.vpn) in s'.pt;
      var p := s.pt[(e, UCOW_VPN)].hi;
      assert Used(s.pt, p);
      forall k | k in s'.pt && s'.pt[k].hi == p
        ensures k.0 == e
      {
      }
      forall k | k in s'.pt && k.0 == e
        ensures k in s.pt && s.pt[k] == s'.pt[k]
      {
        var v := k.1;
        assert k == (e, v) && (e, v) in s'.pt;
        assert (e, v) in s.pt;
      }
      KeepAt(s, s', (e, UCOW_VPN), (e, UCOW_VPN));
      KeepAt(s, s', (e, ph.vpn), (e, ph.vpn));
    }
  }

  /** Equal entries for program pages, over kept memory, are the same eager state. */
  lemma AbsSame(s: Lazy, s': Lazy)
    requires InMem(s) && InMem(s')
    requires forall k: Key :: UserVpn(k.1) ==> (k in s.pt <==> k in s'.pt)
    requires forall k :: k in s.pt && UserVpn(k.1) ==>
      AbsPage(s, k) == AbsPage(s', k) && s.mem[s.pt[k].hi] == s'.mem[s'.pt[k].hi]
    ensures Abs(s) == Abs(s')
  {
  }

  /** A new entry at one place, over kept pages, is a new eager page at that place. */
  lemma PageUpdate(s: Lazy, s': Lazy, k0: Key)
    requires InMem(s) && InMem(s') && UserVpn(k0.1) && k0 in s'.pt
    requires forall k: Key :: k != k0 && UserVpn(k.1) ==> (k in s.pt <==> k in s'.pt)
    requires forall k :: k in s.pt && k != k0 && UserVpn(k.1) ==> k in s'.pt && AbsPage(s', k) == AbsPage(s, k)
    ensures AbsPages(s') == AbsPages(s)[k0 := AbsPage(s', k0)]
  {
  }

  /** The objects of the eager state are the library pages mapped by programs, whatever else `obj` holds. */
  lemma AbsCollect(s: Lazy, obj: map<int, seq<Word>>)
    requires InMem(s)
    requires forall k {:trigger s.pt[k]} :: k in s.pt && UserVpn(k.1) && s.pt[k].lo.lib ==>
      s.pt[k].hi in obj && obj[s.pt[k].hi] == s.mem[s.pt[k].hi]
    ensures Abs(s) == Collect(AbsPages(s), obj)
  {
    var page := AbsPages(s);
    forall p: int ensures Named(page, p) <==> LibNamed(s.pt, p) {
      NamedIff(s, p);
    }
  }

  lemma NamedIff(s: Lazy, p: int)
    requires InMem(s)
    ensures Named(AbsPages(s), p) <==> LibNamed(s.pt, p)
  {
    var page := AbsPages(s);
    if k :| k in s.pt && UserVpn(k.1) && s.pt[k].lo.lib && s.pt[k].hi == p {
      assert k in page && page[k].Library? && page[k].obj == p;
    }
  }

  /** The contents of library pages mapped before and after are the same objects. */
  lemma AbsKept(s: Lazy, s': Lazy, k: Key, k': Key)
    requires InMem(s) && InMem(s') && Keep(s, s')
    requires k in s.pt && k' in s'.pt && UserVpn(k.1) && s.pt[k].lo.lib && s.pt[k].hi == s'.pt[k'].hi
    ensures s.pt[k].hi in AbsObjs(s) && AbsObjs(s)[s.pt[k].hi] == s'.mem[s'.pt[k'].hi]
  {
    KeepAt(s, s', k, k');
    assert LibNamed(s.pt, s.pt[k].hi);
  }

  // ---- one lemma a step ----

  lemma StepRead(s: Lazy, s': Lazy, a: Act)
    requires Inv(s) && a.Read? && Step(s, s', a)
    ensures Inv(s') && EagerStep(Abs(s), Abs(s'), a)
  {
  }

  /** A page that a program may write is its own, or a library page wherever it is mapped. */
  lemma WritableAlone(s: Lazy, k0: Key, k: Key)
    requires Inv(s) && k0 in s.pt && k0.1 != UCOW_VPN && s.pt[k0].lo.d
    requires k in s.pt && k != k0 && k.1 != UCOW_VPN && s.pt[k].hi == s.pt[k0].hi
    ensures UserVpn(k0.1) && UserVpn(k.1) && s.pt[k].lo.lib && s.pt[k0].lo.lib
  {
  }

  lemma StepWrite(s: Lazy, s': Lazy, a: Act)
    requires Inv(s) && a.Write? && Step(s, s', a)
    ensures Inv(s') && EagerStep(Abs(s), Abs(s'), a)
  {
    hide Exclusive, CowClean, AboveUtemp;
    forall e: int ensures HandlerOk(s', e) {
      assert HandlerOk(s, e);
      WriteHandler(s, s', a, e);
    }
    WriteAbs(s, s', a);
  }

  lemma WriteAbs(s: Lazy, s': Lazy, a: Act)
    requires Inv(s) && InMem(s') && a.Write? && Step(s, s', a)
    ensures !UserVpn(a.v) ==> Abs(s') == Abs(s)
    ensures UserVpn(a.v) ==> var w, f := s.pt[(a.e, a.v)], s.mem[s.pt[(a.e, a.v)].hi][a.off := a.w];
      if w.lo.lib then AbsPages(s') == AbsPages(s) && AbsObjs(s') == AbsObjs(s)[w.hi := f] && LibNamed(s.pt, w.hi)
      else AbsPages(s') == AbsPages(s)[(a.e, a.v) := Private(f, true)] && AbsObjs(s') == AbsObjs(s)
  {
    hide Exclusive, CowClean, AboveUtemp, HandlerOk;
    var k0 := (a.e, a.v);
    var p := s.pt[k0].hi;
    forall k | k in s.pt && k != k0 && k.1 != UCOW_VPN && s.pt[k].hi == p
      ensures UserVpn(a.v) && UserVpn(k.1) && s.pt[k].lo.lib && s.pt[k0].lo.lib
    {
      WritableAlone(s, k0, k);
    }
    if UserVpn(a.v) {
      PageUpdate(s, s', k0);
      ObjsWrite(s, s', p, s.mem[p][a.off := a.w]);
      if s.pt[k0].lo.lib {
        assert LibNamed(s.pt, p);
      } else if k :| k in s.pt && UserVpn(k.1) && s.pt[k].lo.lib && s.pt[k].hi == p {
        WritableAlone(s, k0, k);
      }
    } else {
      AbsSame(s, s');
    }
  }

  lemma ObjsWrite(s: Lazy, s': Lazy, p: int, f: Frame)
    requires 0 <= p < |s.mem| && s'.pt == s.pt && s'.mem == s.mem[p := f]
    ensures AbsObjs(s') == if LibNamed(s.pt, p) then AbsObjs(s)[p := f] else AbsObjs(s)
  {
  }

  lemma WriteHandler(s: Lazy, s': Lazy, a: Act, e: int)
    requires Inv(s) && a.Write? && Step(s, s', a) && HandlerOk(s, e)
    ensures HandlerOk(s', e)
  {
    var ph := s.PhaseOf(e);
    if ph.Copying? {
      assert s.pt[(e, ph.vpn)].hi != s.pt[(a.e, a.v)].hi;
      assert s.pt[(e, UCOW_VPN)].hi != s.pt[(a.e, a.v)].hi;
    }
  }

  lemma StepAlloc(s: Lazy, s': Lazy, a: Act)
    requires Inv(s) && a.Alloc? && Step(s, s', a)
    ensures Inv(s') && EagerStep(Abs(s), Abs(s'), a)
  {
    var p: Hi :| p < |s.mem| && !Used(s.pt, p) && Keep(s, s') && s'.pt == s.pt[(a.e, a.v) := Word(p, a.lo)]
      && s'.mem[p] == ZeroFrame();
    AllocInv(s, s', a, p);
    AllocAbs(s, s', a, p);
  }

  lemma Unmapped(s: Lazy, p: int, k: Key)
    requires !Used(s.pt, p) && k in s.pt
    ensures s.pt[k].hi != p
  {
  }

  lemma AllocInv(s: Lazy, s': Lazy, a: Act, p: Hi)
    requires Inv(s) && a.Alloc? && Step(s, s', a)
    requires p < |s.mem| && !Used(s.pt, p) && Keep(s, s') && s'.pt == s.pt[(a.e, a.v) := Word(p, a.lo)]
    ensures Inv(s')
  {
    forall k | k in s.pt ensures s.pt[k].hi != p {
      Unmapped(s, p, k);
    }
    forall e: int ensures HandlerOk(s', e) {
      assert HandlerOk(s, e);
      if e != a.e {
        HandlerFrame(s, s', e);
      }
    }
  }

  lemma AllocAbs(s: Lazy, s': Lazy, a: Act, p: Hi)
    requires Inv(s) && InMem(s') && a.Alloc? && Step(s, s', a)
    requires p < |s.mem| && !Used(s.pt, p) && Keep(s, s') && s'.pt == s.pt[(a.e, a.v) := Word(p, a.lo)]
    requires s'.mem[p] == ZeroFrame()
    ensures EagerStep(Abs(s), Abs(s'), a)
  {
    hide Exclusive, CowClean, AboveUtemp, HandlerOk, FreshPage;
    var k0 := (a.e, a.v);
    forall k | k in s.pt && k != k0 ensures s'.mem[s.pt[k].hi] == s.mem[s.pt[k].hi] {
      KeepAt(s, s', k, k);
    }
    if !UserVpn(a.v) {
      AbsSame(s, s');
      return;
    }
    var t, t' := Abs(s), Abs(s');
    var obj := if a.lo.lib then t.obj[p := ZeroFrame()] else t.obj;
    forall k | k in s'.pt && UserVpn(k.1) && s'.pt[k].lo.lib
      ensures s'.pt[k].hi in obj && obj[s'.pt[k].hi] == s'.mem[s'.pt[k].hi]
    {
      if k != k0 {
        AbsKept(s, s', k, k);
        Unmapped(s, p, k);
      }
    }
    AbsCollect(s', obj);
    PageUpdate(s, s', k0);
    assert t'.page == t.page[k0 := AbsPage(s', k0)];
    assert t' == Collect(t'.page, obj);
    forall k | k in t.page ensures !(t.page[k].Library? && t.page[k].obj == p) {
      Unmapped(s, p, k);
    }
    assert !Named(t.page, p);
    assert AbsPage(s', k0) == if a.lo.lib then Library(p, a.lo.d) else Private(ZeroFrame(), a.lo.d);
  }

  // Sharing a library page.

  lemma StepShare(s: Lazy, s': Lazy, a: Act)
    requires Inv(s) && a.Share? && Step(s, s', a)
    ensures Inv(s') && EagerStep(Abs(s), Abs(s'), a)
  {
    ShareInv(s, s', a);
    ShareAbs(s, s', a);
  }

  lemma ShareInv(s: Lazy, s': Lazy, a: Act)
    requires Inv(s) && a.Share? && Step(s, s', a)
    ensures Inv(s')
  {
    assert s.pt[(a.e, a.v)].lo.lib;
    forall e: int ensures HandlerOk(s', e) {
      assert HandlerOk(s, e) && HandlerOk(s, a.e);
      if e != a.e2 && e != a.e {
        HandlerFrame(s, s', e);
      }
    }
  }

  lemma ShareAbs(s: Lazy, s': Lazy, a: Act)
    requires Inv(s) && InMem(s') && a.Share? && Step(s, s', a)
    ensures EagerStep(Abs(s), Abs(s'), a)
  {
    hide Exclusive, CowClean, AboveUtemp, HandlerOk;
    var k0, k1 := (a.e, a.v), (a.e2, a.v2);
    forall k | k in s.pt && k != k1 ensures s'.mem[s.pt[k].hi] == s.mem[s.pt[k].hi] {
      KeepAt(s, s', k, k);
    }
    forall k | k in s'.pt && UserVpn(k.1) && s'.pt[k].lo.lib
      ensures s'.pt[k].hi in AbsObjs(s) && AbsObjs(s)[s'.pt[k].hi] == s'.mem[s'.pt[k].hi]
    {
      AbsKept(s, s', if k == k1 then k0 else k, k);
    }
    AbsCollect(s', AbsObjs(s));
    PageUpdate(s, s', k1);
  }

  // Unmapping, and leaving.

  /** Removing the entries of `gone` removes their eager pages. */
  lemma RemovePages(s: Lazy, s': Lazy)
    requires InMem(s) && Keep(s, s') && s'.pt.Keys <= s.pt.Keys && forall k :: k in s'.pt ==> s'.pt[k] == s.pt[k]
    ensures InMem(s')
    ensures AbsPages(s') == (map k | k in AbsPages(s) && k in s'.pt :: AbsPages(s)[k])
    ensures Abs(s') == Collect(AbsPages(s'), AbsObjs(s))
  {
    forall k | k in s'.pt ensures s'.mem[s.pt[k].hi] == s.mem[s.pt[k].hi] {
      KeepAt(s, s', k, k);
    }
    forall k | k in s'.pt && UserVpn(k.1) && s'.pt[k].lo.lib
      ensures s'.pt[k].hi in AbsObjs(s) && AbsObjs(s)[s'.pt[k].hi] == s'.mem[s'.pt[k].hi]
    {
      AbsKept(s, s', k, k);
    }
    AbsCollect(s', AbsObjs(s));
  }

  /** With fewer entries nothing new is shared. */
  lemma FewerEntries(s: Lazy, s': Lazy)
    requires InMem(s) && Exclusive(s.pt) && CowClean(s.pt) && AboveUtemp(s.pt) && |s'.mem| == |s.mem|
    requires s'.pt.Keys <= s.pt.Keys && forall k :: k in s'.pt ==> s'.pt[k] == s.pt[k]
    ensures InMem(s') && Exclusive(s'.pt) && CowClean(s'.pt) && AboveUtemp(s'.pt)
  {
  }

  /** Removing entries of one environment leaves the handlers of the others alone. */
  lemma FewerHandlers(s: Lazy, s': Lazy, e0: int, e: int)
    requires Inv(s) && InMem(s') && Keep(s, s')
    requires s'.pt.Keys <= s.pt.Keys && forall k :: k in s'.pt ==> s'.pt[k] == s.pt[k]
    requires forall k :: k in s.pt && k.0 != e0 ==> k in s'.pt
    requires s'.PhaseOf(e) == s.PhaseOf(e) && e != e0
    ensures HandlerOk(s', e)
  {
    assert HandlerOk(s, e);
    hide HandlerOk, Exclusive, CowClean, AboveUtemp, Keep;
    HandlerFrame(s, s', e);
  }

  lemma StepUnmap(s: Lazy, s': Lazy, a: Act)
    requires Inv(s) && a.Unmap? && Step(s, s', a)
    ensures Inv(s') && EagerStep(Abs(s), Abs(s'), a)
  {
    UnmapInv(s, s', a);
    hide Exclusive, CowClean, AboveUtemp, HandlerOk;
    RemovePages(s, s');
    assert AbsPages(s') == AbsPages(s) - {(a.e, a.v)};
  }

  lemma UnmapInv(s: Lazy, s': Lazy, a: Act)
    requires Inv(s) && a.Unmap? && Step(s, s', a)
    ensures Inv(s')
  {
    FewerEntries(s, s');
    hide Exclusive, CowClean, AboveUtemp;
    forall e: int ensures HandlerOk(s', e) {
      if e != a.e {
        hide HandlerOk;
        FewerHandlers(s, s', a.e, e);
      } else {
        assert HandlerOk(s, e);
      }
    }
  }

  lemma ExitInv(s: Lazy, s': Lazy, a: Act)
    requires Inv(s) && a.Exit? && Step(s, s', a)
    ensures Inv(s')
  {
    FewerEntries(s, s');
    hide Exclusive, CowClean, AboveUtemp;
    forall e: int ensures HandlerOk(s', e) {
      if e != a.e {
        hide HandlerOk;
        FewerHandlers(s, s', a.e, e);
      }
    }
  }

  lemma StepExit(s: Lazy, s': Lazy, a: Act)
    requires Inv(s) && a.Exit? && Step(s, s', a)
    ensures Inv(s') && EagerStep(Abs(s), Abs(s'), a)
  {
    ExitInv(s, s', a);
    hide HandlerOk, CowClean, Exclusive, AboveUtemp;
    RemovePages(s, s');
    hide Step, Keep;
    assert AbsPages(s') == map k | k in AbsPages(s) && k.0 != a.e :: AbsPages(s)[k];
  }

  lemma StepSkip(s: Lazy, s': Lazy, a: Act)
    requires Inv(s) && a.Skip? && Step(s, s', a)
    ensures Inv(s') && EagerStep(Abs(s), Abs(s'), a)
  {
    forall k | k in s.pt ensures s'.mem[s.pt[k].hi] == s.mem[s.pt[k].hi] { KeepAt(s, s', k, k); }
    forall e: int ensures HandlerOk(s', e) {
      assert HandlerOk(s, e);
      HandlerFrame(s, s', e);
    }
    AbsSame(s, s');
  }

  // Fork.

  lemma StepFork(s: Lazy, s': Lazy, a: Act)
    requires Inv(s) && a.Fork? && Step(s, s', a)
    ensures Inv(s') && EagerStep(Abs(s), Abs(s'), a)
  {
    ForkInv(s, s', a);
    ForkAbs(s, s', a);
  }

  /** Where an entry of the forked tables comes from. */
  ghost function Origin(a: Act, k: Key): Key
    requires a.Fork?
  {
    if k.0 == a.child then (a.e, k.1) else k
  }

  lemma ForkEntry(s: Lazy, s': Lazy, a: Act, k: Key)
    requires a.Fork? && Step(s, s', a) && k in s'.pt
    ensures Origin(a, k) in s.pt && s'.pt[k].hi == s.pt[Origin(a, k)].hi
    ensures k.0 == a.child ==> k.1 < USTACK_VPN
    ensures s'.pt[k] == if (k.0 == a.e || k.0 == a.child) && k.1 < USTACK_VPN then CowPte(s.pt[Origin(a, k)])
                        else s.pt[k]
  {
    hide SweepPt;
    SweepAt(s.pt, a.e, a.child, USTACK_VPN, k);
  }

  lemma ForkHas(s: Lazy, s': Lazy, a: Act, k: Key)
    requires a.Fork? && Step(s, s', a) && k in s.pt
    ensures k.0 != a.child && k in s'.pt
    ensures k.0 == a.e && k.1 < USTACK_VPN ==> (a.child, k.1) in s'.pt
  {
    hide SweepPt;
    assert k == (k.0, k.1);
    SweepAt(s.pt, a.e, a.child, USTACK_VPN, k);
    SweepAt(s.pt, a.e, a.child, USTACK_VPN, (a.child, k.1));
  }

  lemma ForkInv(s: Lazy, s': Lazy, a: Act)
    requires Inv(s) && a.Fork? && Step(s, s', a)
    ensures Inv(s')
  {
    hide Exclusive, ForkPt, SweepPt, Keep;
    forall k | k in s'.pt
      ensures Origin(a, k) in s.pt && s'.pt[k].hi == s.pt[Origin(a, k)].hi
    {
      ForkEntry(s, s', a, k);
    }
    assert |s'.mem| == |s.mem| by { ForkMem(s, s', a); }
    assert InMem(s');
    assert Exclusive(s'.pt) by { ForkAllExclusive(s, s', a); }
    assert CowClean(s'.pt) by {
      forall k | k in s'.pt && k.1 != UCOW_VPN && s'.pt[k].lo.cow
        ensures UserVpn(k.1) && !s'.pt[k].lo.d && !s'.pt[k].lo.lib
      {
        ForkEntry(s, s', a, k);
      }
    }
    forall e: int ensures HandlerOk(s', e) {
      ForkHandler(s, s', a, e);
    }
  }

  lemma ForkMem(s: Lazy, s': Lazy, a: Act)
    requires a.Fork? && Step(s, s', a)
    ensures |s'.mem| == |s.mem|
  {
  }

  lemma ForkAllExclusive(s: Lazy, s': Lazy, a: Act)
    requires Inv(s) && a.Fork? && Step(s, s', a)
    ensures Exclusive(s'.pt)
  {
    hide ForkPt, SweepPt, Keep, HandlerOk;
    forall k, l | k in s'.pt && l in s'.pt && k != l && k.1 != UCOW_VPN && l.1 != UCOW_VPN && s'.pt[k].hi == s'.pt[l].hi
      ensures UserVpn(k.1) && UserVpn(l.1) && MayShare(s'.pt[k], s'.pt[l])
    {
      ForkShares(s, s', a, k, l);
    }
  }

  lemma ForkHandler(s: Lazy, s': Lazy, a: Act, e: int)
    requires Inv(s) && InMem(s') && a.Fork? && Step(s, s', a)
    ensures HandlerOk(s', e)
  {
    hide SweepPt;
    assert HandlerOk(s, e) && HandlerOk(s, a.e) && HandlerOk(s, a.child);
    forall k | k in s'.pt ensures Origin(a, k) in s.pt && s'.pt[k].hi == s.pt[Origin(a, k)].hi {
      ForkEntry(s, s', a, k);
    }
    forall v: int {
      SweepAt(s.pt, a.e, a.child, USTACK_VPN, (e, v));
    }
    if e != a.e && e != a.child {
      HandlerFrame(s, s', e);
    }
  }

  lemma ForkAbs(s: Lazy, s': Lazy, a: Act)
    requires Inv(s) && InMem(s') && a.Fork? && Step(s, s', a)
    ensures AbsPages(s') == AbsPages(s) + Copies(AbsPages(s), a.e, a.child) && AbsObjs(s') == AbsObjs(s)
  {
    hide Exclusive, CowClean, AboveUtemp, HandlerOk, ForkPt, SweepPt, Copies, AbsPages, AbsObjs;
    forall k | k in s'.pt
      ensures Origin(a, k) in s.pt && AbsPage(s', k) == AbsPage(s, Origin(a, k))
    {
      ForkEntry(s, s', a, k);
      KeepAt(s, s', Origin(a, k), k);
    }
    forall k | k in s.pt
      ensures k.0 != a.child && k in s'.pt && (k.0 == a.e && k.1 < USTACK_VPN ==> (a.child, k.1) in s'.pt)
    {
      ForkHas(s, s', a, k);
    }
    ForkPages(s, s', a);
    ForkObjs(s, s', a);
  }

  lemma ForkPages(s: Lazy, s': Lazy, a: Act)
    requires InMem(s) && InMem(s') && a.Fork?
    requires forall k :: k in s'.pt ==> Origin(a, k) in s.pt && AbsPage(s', k) == AbsPage(s, Origin(a, k))
    requires forall k :: k in s.pt ==>
      k.0 != a.child && k in s'.pt && (k.0 == a.e && k.1 < USTACK_VPN ==> (a.child, k.1) in s'.pt)
    ensures AbsPages(s') == AbsPages(s) + Copies(AbsPages(s), a.e, a.child)
  {
    hide *;
    var p' := AbsPages(s) + Copies(AbsPages(s), a.e, a.child);
    forall k: Key
      ensures k in AbsPages(s') <==> k in p'
      ensures k in p' ==> AbsPages(s')[k] == p'[k]
    {
      ForkPage(s, s', a, k);
    }
    SameMap(AbsPages(s'), p');
  }

  lemma SameMap<K, V>(m: map<K, V>, m': map<K, V>)
    requires forall k {:trigger k in m'} :: k in m <==> k in m'
    requires forall k {:trigger m'[k]} :: k in m' ==> m[k] == m'[k]
    ensures m == m'
  {
    assert m.Keys == m'.Keys;
  }

  lemma ForkPage(s: Lazy, s': Lazy, a: Act, k: Key)
    requires InMem(s) && InMem(s') && a.Fork?
    requires forall k :: k in s'.pt ==> Origin(a, k) in s.pt && AbsPage(s', k) == AbsPage(s, Origin(a, k))
    requires forall k :: k in s.pt ==>
      k.0 != a.child && k in s'.pt && (k.0 == a.e && k.1 < USTACK_VPN ==> (a.child, k.1) in s'.pt)
    ensures var p' := AbsPages(s) + Copies(AbsPages(s), a.e, a.child);
      && (k in AbsPages(s') <==> k in p')
      && (k in p' ==> AbsPages(s')[k] == p'[k])
  {
    hide Copies;
    CopiesAt(AbsPages(s), a.e, a.child, k);
    if k.0 == a.child {
      assert k == (a.child, k.1);
    }
  }

  lemma CopiesAt(page: map<Key, Page>, e: int, child: int, k: Key)
    ensures k in Copies(page, e, child) <==> k.0 == child && (e, k.1) in page
    ensures k in Copies(page, e, child) ==> Copies(page, e, child)[k] == page[(e, k.1)]
  {
    assert k.0 == child ==> k == (child, k.1);
  }

  lemma ForkObjs(s: Lazy, s': Lazy, a: Act)
    requires Inv(s) && InMem(s') && a.Fork? && Step(s, s', a)
    ensures AbsObjs(s') == AbsObjs(s)
  {
    hide Exclusive, CowClean, AboveUtemp, HandlerOk, ForkPt, SweepPt, AbsPages;
    forall p: int ensures LibNamed(s'.pt, p) <==> LibNamed(s.pt, p) {
      if k :| k in s.pt && UserVpn(k.1) && s.pt[k].lo.lib && s.pt[k].hi == p {
        ForkHas(s, s', a, k);
        ForkEntry(s, s', a, k);
      }
      if k :| k in s'.pt && UserVpn(k.1) && s'.pt[k].lo.lib && s'.pt[k].hi == p {
        ForkEntry(s, s', a, k);
        assert UserVpn(Origin(a, k).1) && s.pt[Origin(a, k)].lo.lib;
      }
    }
    forall p: int | 0 <= p < |s.mem| && LibNamed(s.pt, p) ensures s'.mem[p] == s.mem[p] {
      var k :| k in s.pt && UserVpn(k.1) && s.pt[k].lo.lib && s.pt[k].hi == p;
      ForkHas(s, s', a, k);
      ForkEntry(s, s', a, k);
      KeepAt(s, s', k, k);
    }
  }

  /**
    Marking both sides copy-on-write is what lets them share. `duppage` leaves a page that is already
    PTE_COW alone even if it is still PTE_D, which a program can ask for in syscall_mem_alloc. Without
    CowClean, fork keeps every writable page in one place exactly when the parent has no such page.
   */
  lemma ForkIsolatesIff(s: Lazy, s': Lazy, a: Act)
    requires InMem(s) && Exclusive(s.pt) && AboveUtemp(s.pt) && a.Fork? && Step(s, s', a)
    ensures Exclusive(s'.pt) <==>
      forall v: int {:trigger s.pt[(a.e, v)]} ::
        (a.e, v) in s.pt && UserVpn(v) && s.pt[(a.e, v)].lo.d && s.pt[(a.e, v)].lo.cow ==>
        s.pt[(a.e, v)].lo.lib
  {
    hide ForkPt, SweepPt;
    if v: int :|
      (a.e, v) in s.pt && UserVpn(v) && s.pt[(a.e, v)].lo.d && s.pt[(a.e, v)].lo.cow && !s.pt[(a.e, v)].lo.lib
    {
      ForkHas(s, s', a, (a.e, v));
      ForkEntry(s, s', a, (a.e, v));
      ForkEntry(s, s', a, (a.child, v));
      assert !MayShare(s'.pt[(a.e, v)], s'.pt[(a.child, v)]);
    } else {
      forall k, l | k in s'.pt && l in s'.pt && k != l && k.1 != UCOW_VPN && l.1 != UCOW_VPN &&
        s'.pt[k].hi == s'.pt[l].hi
        ensures UserVpn(k.1) && UserVpn(l.1) && MayShare(s'.pt[k], s'.pt[l])
      {
        ForkShares(s, s', a, k, l);
      }
    }
  }

  lemma ForkShares(s: Lazy, s': Lazy, a: Act, k: Key, l: Key)
    requires InMem(s) && Exclusive(s.pt) && AboveUtemp(s.pt) && a.Fork? && Step(s, s', a)
    requires k in s'.pt && l in s'.pt && k != l && k.1 != UCOW_VPN && l.1 != UCOW_VPN && s'.pt[k].hi == s'.pt[l].hi
    requires forall v: int {:trigger s.pt[(a.e, v)]} ::
      (a.e, v) in s.pt && UserVpn(v) && s.pt[(a.e, v)].lo.d && s.pt[(a.e, v)].lo.cow ==>
      s.pt[(a.e, v)].lo.lib
    ensures UserVpn(k.1) && UserVpn(l.1) && MayShare(s'.pt[k], s'.pt[l])
  {
    hide ForkPt, SweepPt;
    ForkEntry(s, s', a, k);
    ForkEntry(s, s', a, l);
    var k0, l0 := Origin(a, k), Origin(a, l);
    if k0 == l0 {
      assert k0 == (a.e, k.1);
      assert UserVpn(k.1);
    } else {
      assert MayShare(s.pt[k0], s.pt[l0]);
    }
  }

  // The copy-on-write handler: nothing of it is visible.

  lemma StepFaultAlloc(s: Lazy, s': Lazy, a: Act)
    requires Inv(s) && a.FaultAlloc? && Step(s, s', a)
    ensures Inv(s') && Abs(s') == Abs(s)
  {
    var k0 := (a.e, UCOW_VPN);
    var lo := s.pt[(a.e, a.v)].lo.(cow := false, d := true);
    var p: Hi :| p < |s.mem| && !Used(s.pt, p) && Keep(s, s') && s'.pt == s.pt[k0 := Word(p, lo)]
      && s'.mem[p] == ZeroFrame();
    FaultAllocInv(s, s', a, p, lo);
    FaultAllocAbs(s, s', k0, Word(p, lo));
  }

  lemma FaultAllocInv(s: Lazy, s': Lazy, a: Act, p: Hi, lo: Flags)
    requires Inv(s) && a.FaultAlloc? && Step(s, s', a)
    requires p < |s.mem| && !Used(s.pt, p) && s'.pt == s.pt[(a.e, UCOW_VPN) := Word(p, lo)] && Keep(s, s')
    ensures Inv(s')
  {
    hide FreshPage;
    forall k | k in s.pt ensures s.pt[k].hi != p {
      Unmapped(s, p, k);
    }
    forall e: int ensures HandlerOk(s', e) {
      assert HandlerOk(s, e);
      if e != a.e {
        HandlerFrame(s, s', e);
      }
    }
  }

  lemma FaultAllocAbs(s: Lazy, s': Lazy, k0: Key, w: Word)
    requires InMem(s) && InMem(s') && Keep(s, s') && k0.1 == UCOW_VPN && s'.pt == s.pt[k0 := w]
    ensures Abs(s') == Abs(s)
  {
    forall k | k in s.pt && k != k0 ensures s'.mem[s.pt[k].hi] == s.mem[s.pt[k].hi] {
      KeepAt(s, s', k, k);
    }
    AbsSame(s, s');
  }

  lemma StepFaultCopy(s: Lazy, s': Lazy, a: Act)
    requires Inv(s) && a.FaultCopy? && Step(s, s', a)
    ensures Inv(s') && Abs(s') == Abs(s)
  {
    assert HandlerOk(s, a.e);
    var p := s.pt[(a.e, UCOW_VPN)].hi;
    forall e: int ensures HandlerOk(s', e) {
      assert HandlerOk(s, e);
    }
    AbsSame(s, s');
  }

  lemma StepFaultMap(s: Lazy, s': Lazy, a: Act)
    requires Inv(s) && a.FaultMap? && Step(s, s', a)
    ensures Inv(s') && Abs(s') == Abs(s)
  {
    assert HandlerOk(s, a.e);
    FaultMapInv(s, s', a);
    FaultMapAbs(s, s', a);
  }

  lemma FaultMapInv(s: Lazy, s': Lazy, a: Act)
    requires Inv(s) && a.FaultMap? && Step(s, s', a) && HandlerOk(s, a.e)
    ensures Inv(s')
  {
    forall e: int ensures HandlerOk(s', e) {
      assert HandlerOk(s, e);
      if e != a.e {
        HandlerFrame(s, s', e);
      }
    }
  }

  lemma FaultMapAbs(s: Lazy, s': Lazy, a: Act)
    requires Inv(s) && InMem(s') && a.FaultMap? && Step(s, s', a) && HandlerOk(s, a.e)
    ensures Abs(s') == Abs(s)
  {
    var k0, k1 := (a.e, s.PhaseOf(a.e).vpn), (a.e, UCOW_VPN);
    assert s.pt[k0].lo.cow;
    assert s.mem[s.pt[k1].hi] == s.mem[s.pt[k0].hi];
    hide Exclusive, AboveUtemp, HandlerOk;
    KeepAt(s, s', k1, k0);
    forall k | k in s.pt && k != k0 ensures s'.mem[s.pt[k].hi] == s.mem[s.pt[k].hi] {
      KeepAt(s, s', k, k);
    }
    AbsSame(s, s');
  }

  lemma StepFaultUnmap(s: Lazy, s': Lazy, a: Act)
    requires Inv(s) && a.FaultUnmap? && Step(s, s', a)
    ensures Inv(s') && Abs(s') == Abs(s)
  {
    FaultUnmapInv(s, s', a);
    hide Exclusive, CowClean, AboveUtemp, HandlerOk;
    forall k | k in s'.pt ensures s'.mem[s.pt[k].hi] == s.mem[s.pt[k].hi] {
      KeepAt(s, s', k, k);
    }
    AbsSame(s, s');
  }

  lemma FaultUnmapInv(s: Lazy, s': Lazy, a: Act)
    requires Inv(s) && a.FaultUnmap? && Step(s, s', a)
    ensures Inv(s')
  {
    FewerEntries(s, s');
    hide Exclusive, CowClean, AboveUtemp;
    forall e: int ensures HandlerOk(s', e) {
      if e != a.e {
        hide HandlerOk;
        FewerHandlers(s, s', a.e, e);
      }
    }
  }

  // ---- runs ----

  /** Every step of the lazy machine is the eager step of the same action, with the same observations. */
  lemma Simulates(s: Lazy, s': Lazy, a: Act)
    requires Inv(s) && Step(s, s', a)
    ensures Inv(s') && EagerStep(Abs(s), Abs(s'), a)
  {
    hide Inv, Step, Abs;
    match a
    case Read(_, _, _, _) => StepRead(s, s', a);
    case Write(_, _, _, _) => StepWrite(s, s', a);
    case Alloc(_, _, _) => StepAlloc(s, s', a);
    case Share(_, _, _, _, _) => StepShare(s, s', a);
    case Unmap(_, _) => StepUnmap(s, s', a);
    case Fork(_, _) => StepFork(s, s', a);
    case Exit(_) => StepExit(s, s', a);
    case FaultAlloc(_, _) => StepFaultAlloc(s, s', a);
    case FaultCopy(_) => StepFaultCopy(s, s', a);
    case FaultMap(_) => StepFaultMap(s, s', a);
    case FaultUnmap(_) => StepFaultUnmap(s, s', a);
    case Skip => StepSkip(s, s', a);
  }

  ghost predicate Run(states: seq<Lazy>, acts: seq<Act>) {
    |states| == |acts| + 1 && forall i :: 0 <= i < |acts| ==> Step(states[i], states[i + 1], acts[i])
  }

  ghost predicate EagerRun(states: seq<Eager>, acts: seq<Act>) {
    |states| == |acts| + 1 && forall i :: 0 <= i < |acts| ==> EagerStep(states[i], states[i + 1], acts[i])
  }

  lemma {:induction false} RunInv(states: seq<Lazy>, acts: seq<Act>, n: int)
    requires Run(states, acts) && Inv(states[0]) && 0 <= n < |states|
    ensures Inv(states[n])
  {
    if n > 0 {
      RunInv(states, acts, n - 1);
      Simulates(states[n - 1], states[n], acts[n - 1]);
    }
  }

  ghost function AbsRun(states: seq<Lazy>): seq<Eager>
    requires forall i :: 0 <= i < |states| ==> InMem(states[i])
  {
    seq(|states|, i requires 0 <= i < |states| => assert InMem(states[i]); Abs(states[i]))
  }

  lemma InitInv(s: Lazy)
    requires s.pt == map[] && s.phase == map[]
    ensures Inv(s) && Abs(s) == Eager(map[], map[])
  {
    forall e: int ensures HandlerOk(s, e) {
    }
  }

  /**
    Over every run from empty address spaces, the same actions, with every value read, are a run of the
    machine that copies at fork: copy-on-write is not observable.
   */
  lemma CowRefinesEager(states: seq<Lazy>, acts: seq<Act>)
    requires Run(states, acts) && states[0].pt == map[] && states[0].phase == map[]
    ensures forall i :: 0 <= i < |states| ==> Inv(states[i]) && InMem(states[i])
    ensures EagerRun(AbsRun(states), acts) && AbsRun(states)[0] == Eager(map[], map[])
  {
    hide HandlerOk, EagerStep, Step, Abs;
    InitInv(states[0]);
    forall i | 0 <= i < |states| ensures Inv(states[i]) && InMem(states[i]) {
      RunInv(states, acts, i);
    }
    forall i | 0 <= i < |acts| ensures EagerStep(AbsRun(states)[i], AbsRun(states)[i + 1], acts[i]) {
      Simulates(states[i], states[i + 1], acts[i]);
    }
  }
}
