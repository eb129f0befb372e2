/** Close detection of a pipe, under preemption. */
module PipeClose {
  // One pipe (user/lib/pipe.c, user/lib/fd.c): the page of its read descriptor, the page of its write descriptor
  // and its data page, each mapped by any number of slots. A slot is a descriptor number of an environment. Every
  // system call is one step, and between any two steps another environment may run. fork goes through its parent's
  // pages in ascending order: first all descriptor pages, then all data pages, one step each.

  datatype End = Rd | Wr
  datatype Slot = Slot(env: nat, fd: nat)

  const MAXFD: nat := 32

  // Where an environment is: closing a slot whose descriptor is already unmapped, somewhere in `dup`, forking, or
  // in _pipe_is_closed on a slot, with env_runs, the descriptor's count and the pipe's count as read.
  datatype Pc =
    | Idle
    | Closing(slot: Slot)
    | DupClosing(src: Slot, dst: Slot)
    | DupClosed(src: Slot, dst: Slot)
    | DupData(src: Slot, dst: Slot)
    | Forking(child: nat)
    | CheckRuns(slot: Slot, runs: nat)
    | CheckFd(slot: Slot, runs: nat, fdRef: nat)
    | CheckBoth(slot: Slot, runs: nat, fdRef: nat, pipeRef: nat)

  // `fd` says which descriptor page a slot maps, `data` which slots map the pipe's data page. `sweep` has the
  // environments that fork has not finished yet, each with the number of pages it has been through: descriptors
  // 0 to MAXFD - 1, then their data pages. Such an environment does not run.
  datatype Sys = Sys(fd: map<Slot, End>, data: set<Slot>, cur: nat, runs: map<nat, nat>, pc: map<nat, Pc>,
                     sweep: map<nat, nat>)
  {
    function RunsOf(e: nat): nat { if e in runs then runs[e] else 0 }
    function PcOf(e: nat): Pc { if e in pc then pc[e] else Idle }
    function With(e: nat, p: Pc): Sys { this.(pc := pc[e := p]) }
  }

  datatype Act =
    | Switch(e: nat, d: nat)
    | CloseFd(slot: Slot)
    | CloseData
    | DupStart(src: Slot, dst: Slot)
    | DupCloseData
    | DupMapData
    | DupMapFd
    | ForkStart(child: nat)
    | ForkPage
    | ForkEnd
    | Exit
    | CheckStart(slot: Slot)
    | ReadFdRef
    | ReadPipeRef
    | Answer(closed: bool)

  function Opposite(x: End): End { if x == Rd then Wr else Rd }

  /** The slots that have end `x` open; its size is the reference count of that descriptor's page. */
  function Open(fd: map<Slot, End>, x: End): set<Slot> {
    set s | s in fd && fd[s] == x
  }

  predicate Own(s: Sys, slot: Slot) { slot.env == s.cur }

  function MapFd(fd: map<Slot, End>, src: Slot, dst: Slot): map<Slot, End> {
    if src in fd then fd[dst := fd[src]] else fd - {dst}
  }

  function MapData(data: set<Slot>, src: Slot, dst: Slot): set<Slot> {
    if src in data then data + {dst} else data - {dst}
  }

  /** Page `n` of the sweep for `child`: a descriptor page, or a data page. */
  function Swept(s: Sys, parent: nat, child: nat, n: nat): Sys {
    if n < MAXFD then
      (if Slot(parent, n) in s.fd then s.(fd := s.fd[Slot(child, n) := s.fd[Slot(parent, n)]]) else s)
    else
      (if Slot(parent, n - MAXFD) in s.data then s.(data := s.data + {Slot(child, n - MAXFD)}) else s)
  }

  ghost predicate Step(s: Sys, s': Sys, a: Act) {
    var p := s.PcOf(s.cur);
    match a
    case Switch(e, d) => d >= 1 && e !in s.sweep && s' == s.(cur := e, runs := s.runs[e := s.RunsOf(e) + d])
    case CloseFd(slot) => p == Idle && Own(s, slot) && s' == s.(fd := s.fd - {slot}).With(s.cur, Closing(slot))
    case CloseData => p.Closing? && s' == s.(data := s.data - {p.slot}).With(s.cur, Idle)
    case DupStart(src, dst) =>
      && p == Idle && Own(s, src) && Own(s, dst) && dst.fd < MAXFD
      && s' == s.(fd := s.fd - {dst}).With(s.cur, DupClosing(src, dst))
    case DupCloseData => p.DupClosing? && s' == s.(data := s.data - {p.dst}).With(s.cur, DupClosed(p.src, p.dst))
    case DupMapData =>
      p.DupClosed? && s' == s.(data := MapData(s.data, p.src, p.dst)).With(s.cur, DupData(p.src, p.dst))
    case DupMapFd => p.DupData? && s' == s.(fd := MapFd(s.fd, p.src, p.dst)).With(s.cur, Idle)
    case ForkStart(child) =>
      && p == Idle && child != s.cur && child !in s.sweep && s.PcOf(child) == Idle
      && (forall x: Slot {:trigger x in s.fd} {:trigger x in s.data} :: x.env == child ==> x !in s.fd && x !in s.data)
      && s' == s.(sweep := s.sweep[child := 0]).With(s.cur, Forking(child))
    case ForkPage =>
      && p.Forking? && p.child in s.sweep && s.sweep[p.child] < 2 * MAXFD
      && s' == Swept(s, s.cur, p.child, s.sweep[p.child]).(sweep := s.sweep[p.child := s.sweep[p.child] + 1])
    case ForkEnd =>
      && p.Forking? && p.child in s.sweep && s.sweep[p.child] == 2 * MAXFD
      && s' == s.(sweep := s.sweep - {p.child}).With(s.cur, Idle)
    case Exit =>
      s' == s.(fd := map x | x in s.fd && x.env != s.cur :: s.fd[x],
               data := set x | x in s.data && x.env != s.cur).With(s.cur, Idle)
    case CheckStart(slot) =>
      p == Idle && Own(s, slot) && slot in s.fd && s' == s.With(s.cur, CheckRuns(slot, s.RunsOf(s.cur)))
    case ReadFdRef =>
      && p.CheckRuns? && p.slot in s.fd
      && s' == s.With(s.cur, CheckFd(p.slot, p.runs, |Open(s.fd, s.fd[p.slot])|))
    case ReadPipeRef =>
      p.CheckFd? && s' == s.With(s.cur, CheckBoth(p.slot, p.runs, p.fdRef, |s.data|))
    case Answer(closed) =>
      && p.CheckBoth?
      && if p.runs != s.RunsOf(s.cur) then s' == s.With(s.cur, CheckRuns(p.slot, s.RunsOf(s.cur))) && !closed
         else s' == s.With(s.cur, Idle) && closed == (p.fdRef == p.pipeRef)
  }

  // ---- the invariant ----

  /** The child's descriptor page `f` has been mapped at position `n` of the sweep, its data page not yet. */
  predicate Between(f: nat, n: nat) { f < n <= MAXFD + f }

  /** The slots of half-way forks that have a descriptor and wait for their data page. */
  ghost function Waiting(s: Sys): set<Slot> {
    set u | u in s.fd && u.env in s.sweep && Between(u.fd, s.sweep[u.env])
  }

  /** The slots between the two steps of close or dup: their data page is all they have. */
  ghost function Late(s: Sys): set<Slot> { s.data - s.fd.Keys }

  /** Otherwise a slot with a descriptor of the pipe has its data page too: unmapped second, mapped first. */
  ghost predicate DataCovers(s: Sys) {
    && (forall u :: u in s.fd ==> u.fd < MAXFD && (u in s.data || u.env in s.sweep))
    && forall u: Slot {:trigger u in s.fd} {:trigger u in s.data} :: u.env in s.sweep ==>
         && (u in s.fd ==> u.fd < s.sweep[u.env])
         && (u in s.data ==> MAXFD + u.fd < s.sweep[u.env])
         && (u in s.fd && MAXFD + u.fd < s.sweep[u.env] ==> u in s.data)
  }

  ghost predicate PcOk(s: Sys, e: nat) {
    match s.PcOf(e)
    case Idle => true
    case Closing(slot) => slot.env == e && slot !in s.fd
    case DupClosing(src, dst) => src.env == dst.env == e && dst !in s.fd && dst.fd < MAXFD
    case DupClosed(src, dst) => src.env == dst.env == e && dst !in s.fd && dst.fd < MAXFD && dst !in s.data
    case DupData(src, dst) =>
      && src.env == dst.env == e && dst !in s.fd && dst.fd < MAXFD && (src in s.fd ==> dst in s.data)
      && (dst in s.data <==> src != dst && src in s.data)
    case Forking(child) =>
      && child != e && child in s.sweep && s.sweep[child] <= 2 * MAXFD && s.PcOf(child) == Idle
      && (forall f: nat :: Slot(child, f) in s.fd ==> Slot(e, f) in s.fd)
    case CheckRuns(slot, r) => slot.env == e && slot in s.fd && r <= s.RunsOf(e)
    case CheckFd(slot, r, f) =>
      && slot.env == e && slot in s.fd && r <= s.RunsOf(e)
      && (s.cur == e && s.RunsOf(e) == r ==> f == |Open(s.fd, s.fd[slot])|)
    case CheckBoth(slot, r, f, p) =>
      && slot.env == e && slot in s.fd && r <= s.RunsOf(e)
      && (s.cur == e && s.RunsOf(e) == r ==> f == |Open(s.fd, s.fd[slot])| && p == |s.data|)
  }

  /** An environment that is still being made does nothing, and has one maker. */
  ghost predicate MakersOk(s: Sys) {
    && s.cur !in s.sweep
    && (forall e: nat {:trigger s.PcOf(e)} :: s.PcOf(e) != Idle ==> e !in s.sweep)
    && forall e: nat, d: nat {:trigger s.PcOf(e), s.PcOf(d)} ::
         s.PcOf(e).Forking? && s.PcOf(d) == s.PcOf(e) ==> e == d
  }

  ghost predicate Inv(s: Sys) {
    DataCovers(s) && MakersOk(s) && forall e: nat {:trigger s.PcOf(e)} :: PcOk(s, e)
  }

  predicate ForkAct(a: Act) { a.ForkStart? || a.ForkPage? || a.ForkEnd? }

  lemma StepCovers(s: Sys, s': Sys, a: Act)
    requires Inv(s) && Step(s, s', a)
    ensures DataCovers(s')
  {
    assert PcOk(s, s.cur) && (s.PcOf(s.cur) != Idle ==> s.cur !in s.sweep);
    if ForkAct(a) {
      ForkCovers(s, s', a);
    } else {
      OtherCovers(s, s', a);
    }
  }

  lemma ForkCovers(s: Sys, s': Sys, a: Act)
    requires DataCovers(s) && s.cur !in s.sweep && PcOk(s, s.cur) && Step(s, s', a) && ForkAct(a)
    ensures DataCovers(s')
  {
    if a.ForkPage? {
      var c, n := s.PcOf(s.cur).child, s.sweep[s.PcOf(s.cur).child];
      assert forall f: nat :: Slot(c, f).env == c && Slot(c, f).fd == f;
      assert forall u: Slot :: u == Slot(u.env, u.fd);
    }
  }

  lemma OtherCovers(s: Sys, s': Sys, a: Act)
    requires DataCovers(s) && s.cur !in s.sweep && PcOk(s, s.cur) && Step(s, s', a) && !ForkAct(a)
    ensures DataCovers(s')
  {
    hide Open;
  }

  lemma StepMakers(s: Sys, s': Sys, a: Act)
    requires Inv(s) && Step(s, s', a)
    ensures MakersOk(s')
  {
    hide DataCovers, Open;
    assert PcOk(s, s.cur);
    if ForkAct(a) {
      ForkMakers(s, s', a);
    } else {
      OtherMakers(s, s', a);
    }
  }

  lemma OtherMakers(s: Sys, s': Sys, a: Act)
    requires Inv(s) && Step(s, s', a) && !ForkAct(a)
    ensures MakersOk(s')
  {
    hide DataCovers, Step;
    OtherPcs(s, s', a);
    forall e: nat | s'.PcOf(e) != Idle ensures e !in s'.sweep {
      assert e != s.cur ==> s'.PcOf(e) == s.PcOf(e);
    }
    forall e: nat, d: nat | s'.PcOf(e).Forking? && s'.PcOf(d) == s'.PcOf(e) ensures e == d {
      assert s'.PcOf(e) == s.PcOf(e) && s'.PcOf(d) == s.PcOf(d);
    }
  }

  lemma OtherPcs(s: Sys, s': Sys, a: Act)
    requires s.cur !in s.sweep && Step(s, s', a) && !ForkAct(a)
    ensures s'.sweep == s.sweep && s'.cur !in s.sweep
    ensures forall e: nat {:trigger s'.PcOf(e)} :: (e == s.cur ==> !s'.PcOf(e).Forking?) || s'.PcOf(e) == s.PcOf(e)
    ensures forall e: nat {:trigger s'.PcOf(e)} :: e != s.cur ==> s'.PcOf(e) == s.PcOf(e)
  {
    hide Open;
  }

  lemma ForkMakers(s: Sys, s': Sys, a: Act)
    requires Inv(s) && Step(s, s', a) && ForkAct(a)
    ensures MakersOk(s')
  {
    hide DataCovers, Swept;
    assert PcOk(s, s.cur);
    SweptKeeps(s, s.cur, if s.PcOf(s.cur).Forking? then s.PcOf(s.cur).child else 0,
               if s.PcOf(s.cur).Forking? && s.PcOf(s.cur).child in s.sweep then s.sweep[s.PcOf(s.cur).child] else 0);
    forall e: nat | s'.PcOf(e) != Idle ensures e !in s'.sweep {
      assert s.PcOf(e) != Idle ==> e !in s.sweep;
    }
    forall e: nat, d: nat | s'.PcOf(e).Forking? && s'.PcOf(d) == s'.PcOf(e) ensures e == d {
      assert PcOk(s, e) && PcOk(s, d);
      assert s.PcOf(e).Forking? && s.PcOf(d) == s.PcOf(e) ==> e == d;
    }
  }

  lemma SweptKeeps(s: Sys, parent: nat, child: nat, n: nat)
    ensures var t := Swept(s, parent, child, n);
      t.cur == s.cur && t.runs == s.runs && t.pc == s.pc && t.sweep == s.sweep
  {
  }

  lemma StepPc(s: Sys, s': Sys, a: Act, e: nat)
    requires Inv(s) && Step(s, s', a)
    ensures PcOk(s', e)
  {
    if e == s.cur {
      StepOwnPc(s, s', a);
    } else {
      StepOtherPc(s, s', a, e);
    }
  }

  lemma StepOwnPc(s: Sys, s': Sys, a: Act)
    requires Inv(s) && Step(s, s', a)
    ensures PcOk(s', s.cur)
  {
    assert PcOk(s, s.cur);
  }

  /** A step of another environment leaves this one's slots and counters alone. */
  lemma StepOtherPc(s: Sys, s': Sys, a: Act, e: nat)
    requires Inv(s) && Step(s, s', a) && e != s.cur
    ensures PcOk(s', e)
  {
    assert PcOk(s, e) && PcOk(s, s.cur);
    OtherSlots(s, s', a, e);
    hide Step, DataCovers;
    if s.PcOf(e).Forking? {
      assert PcOk(s', e);
    }
  }

  ghost predicate SameSlots(s: Sys, s': Sys, e: nat) {
    forall u: Slot {:trigger u in s'.fd} {:trigger u in s'.data} :: u.env == e ==>
      (u in s'.fd <==> u in s.fd) && (u in s.fd ==> s'.fd[u] == s.fd[u]) && (u in s'.data <==> u in s.data)
  }

  /** What a step of another environment leaves as it is, when `e` is not being made. */
  lemma OtherSlots(s: Sys, s': Sys, a: Act, e: nat)
    requires Inv(s) && Step(s, s', a) && e != s.cur
    ensures s'.PcOf(e) == s.PcOf(e) && s'.RunsOf(e) >= s.RunsOf(e)
    ensures !(s'.cur == e && s'.RunsOf(e) == s.RunsOf(e))
    ensures s.PcOf(e) != Idle ==> SameSlots(s, s', e)
    ensures s.PcOf(e).Forking? ==>
      && s.PcOf(e).child in s'.sweep && s'.PcOf(s.PcOf(e).child) == Idle
      && s'.sweep[s.PcOf(e).child] == s.sweep[s.PcOf(e).child] && SameSlots(s, s', s.PcOf(e).child)
  {
    assert PcOk(s, e) && PcOk(s, s.cur);
    hide DataCovers, Open, Step, PcOk;
    if ForkAct(a) {
      OtherSlotsFork(s, s', a, e);
    } else {
      OtherSlotsPlain(s, s', a, e);
    }
  }

  lemma OtherSlotsPlain(s: Sys, s': Sys, a: Act, e: nat)
    requires MakersOk(s) && PcOk(s, e) && PcOk(s, s.cur) && Step(s, s', a) && !ForkAct(a) && e != s.cur
    ensures s'.PcOf(e) == s.PcOf(e) && s'.RunsOf(e) >= s.RunsOf(e)
    ensures !(s'.cur == e && s'.RunsOf(e) == s.RunsOf(e)) && SameSlots(s, s', e)
    ensures s.PcOf(e).Forking? ==>
      && s.PcOf(e).child in s'.sweep && s'.PcOf(s.PcOf(e).child) == Idle
      && s'.sweep[s.PcOf(e).child] == s.sweep[s.PcOf(e).child] && SameSlots(s, s', s.PcOf(e).child)
  {
    hide Open;
    assert s.PcOf(e).Forking? ==> s.PcOf(e).child != s.cur && s'.sweep == s.sweep;
    if s.PcOf(e).Forking? { PlainSlots(s, s', a, s.PcOf(e).child); }
    PlainSlots(s, s', a, e);
    hide SameSlots;
  }

  lemma PlainSlots(s: Sys, s': Sys, a: Act, e: nat)
    requires PcOk(s, s.cur) && Step(s, s', a) && !ForkAct(a) && e != s.cur
    ensures SameSlots(s, s', e)
  {
    hide Open;
  }

  lemma OtherSlotsFork(s: Sys, s': Sys, a: Act, e: nat)
    requires MakersOk(s) && PcOk(s, e) && PcOk(s, s.cur) && Step(s, s', a) && ForkAct(a) && e != s.cur
    ensures s'.PcOf(e) == s.PcOf(e) && s'.RunsOf(e) == s.RunsOf(e) && s'.cur == s.cur
    ensures s.PcOf(e) != Idle ==> SameSlots(s, s', e)
    ensures s.PcOf(e).Forking? ==>
      && s.PcOf(e).child in s'.sweep && s'.PcOf(s.PcOf(e).child) == Idle
      && s'.sweep[s.PcOf(e).child] == s.sweep[s.PcOf(e).child] && SameSlots(s, s', s.PcOf(e).child)
  {
    assert s.PcOf(e) != Idle ==> e !in s.sweep;
    if s.PcOf(s.cur).Forking? && s.PcOf(e).Forking? {
      assert s.PcOf(s.cur) == s.PcOf(e) ==> e == s.cur;
    }
  }

  /** Only its own steps touch an environment's slots, and no count it has read can go stale unnoticed. */
  lemma StepInv(s: Sys, s': Sys, a: Act)
    requires Inv(s) && Step(s, s', a)
    ensures Inv(s')
  {
    hide DataCovers, MakersOk, PcOk, Step;
    StepCovers(s, s', a);
    StepMakers(s, s', a);
    forall e: nat ensures PcOk(s', e) {
      StepPc(s, s', a, e);
    }
  }

  // ---- runs ----

  ghost predicate Run(states: seq<Sys>, acts: seq<Act>) {
    && |states| == |acts| + 1
    && forall i: nat {:trigger acts[i]} :: i < |acts| ==> Step(states[i], states[i + 1], acts[i])
  }

  lemma {:induction false} RunInv(states: seq<Sys>, acts: seq<Act>, i: nat)
    requires Run(states, acts) && Inv(states[0]) && i <= |acts|
    ensures Inv(states[i])
  {
    if i > 0 {
      RunInv(states, acts, i - 1);
      StepInv(states[i - 1], states[i], acts[i - 1]);
    }
  }

  // ---- what the two counts say ----

  /** The arithmetic of the comparison, with no invariant: slots between the two steps of close weigh one
      way, slots that have a descriptor and no data page yet the other. */
  lemma EqualCounts(fd: map<Slot, End>, data: set<Slot>, x: End)
    ensures |Open(fd, x)| == |data| <==> |Open(fd, Opposite(x))| + |data - fd.Keys| == |fd.Keys - data|
  {
    var a, b := Open(fd, x), Open(fd, Opposite(x));
    assert fd.Keys == a + b && a !! b;
    assert |fd.Keys| == |a| + |b|;
    assert fd.Keys == (fd.Keys * data) + (fd.Keys - data);
    assert data == (fd.Keys * data) + (data - fd.Keys);
    assert |fd.Keys| == |fd.Keys * data| + |fd.Keys - data|;
    assert |data| == |fd.Keys * data| + |data - fd.Keys|;
  }

  /** Slots that have a descriptor and no data page are those of half-way forks. */
  lemma WaitingIs(s: Sys)
    requires DataCovers(s)
    ensures Waiting(s) == s.fd.Keys - s.data
  {
  }

  /** The environment `e` is at the end of a check on `slot`, not having been interrupted. */
  ghost predicate Checked(s: Sys, slot: Slot) {
    s.PcOf(s.cur).CheckBoth? && s.PcOf(s.cur).slot == slot && s.PcOf(s.cur).runs == s.RunsOf(s.cur)
  }

  /**
    What a completed check answers. "Closed" means that the slots of the opposite end and those half-way through
    close or dup are together as many as those that wait for their data page in a fork; with no fork between its
    descriptor and its data pages, that the opposite end is gone and nobody is half-way.
   */
  lemma AnswerIff(s: Sys, s': Sys, closed: bool, slot: Slot)
    requires Inv(s) && Step(s, s', Answer(closed)) && Checked(s, slot)
    ensures slot in s.fd && s'.PcOf(s.cur) == Idle
    ensures var opp := Open(s.fd, Opposite(s.fd[slot]));
      && (closed <==> |opp| + |Late(s)| == |Waiting(s)|)
      && (Waiting(s) == {} ==> (closed <==> opp == {} && Late(s) == {}))
  {
    assert PcOk(s, s.cur);
    var x := s.fd[slot];
    hide DataCovers, MakersOk;
    EqualCounts(s.fd, s.data, x);
    WaitingIs(s);
    assert |Open(s.fd, Opposite(x))| == 0 <==> Open(s.fd, Opposite(x)) == {};
    assert |Late(s)| == 0 <==> Late(s) == {};
    assert |Waiting(s)| == 0 <==> Waiting(s) == {};
  }

  ghost predicate Gone(fd: map<Slot, End>, x: End) {
    forall u :: u in fd ==> fd[u] != x
  }

  lemma GoneIff(fd: map<Slot, End>, x: End)
    ensures Gone(fd, x) <==> Open(fd, x) == {}
  {
    if Open(fd, x) == {} {
      forall u | u in fd ensures fd[u] != x { assert u in Open(fd, x) <==> fd[u] == x; }
    }
  }

  /** No step opens an end that nobody has open. */
  lemma EndStaysGone(s: Sys, s': Sys, a: Act, x: End)
    requires Step(s, s', a) && Gone(s.fd, x)
    ensures Gone(s'.fd, x)
  {
    forall u | u in s'.fd ensures s'.fd[u] != x {
      match a
      case ForkPage => assert u in s.fd ==> s.fd[u] != x;
      case DupMapFd => assert s.PcOf(s.cur).src in s.fd ==> s.fd[s.PcOf(s.cur).src] != x;
      case _ =>
    }
  }

  ghost predicate AnswersClosed(states: seq<Sys>, acts: seq<Act>, i: nat, slot: Slot)
    requires Run(states, acts)
  {
    i < |acts| && acts[i] == Answer(true) && Checked(states[i], slot) && slot in states[i].fd
  }

  lemma {:induction false} StaysGone(states: seq<Sys>, acts: seq<Act>, i: nat, j: nat, x: End)
    requires Run(states, acts) && i <= j <= |acts| && Open(states[i].fd, x) == {}
    ensures Open(states[j].fd, x) == {}
  {
    hide Step, Open;
    if i < j {
      StaysGone(states, acts, i, j - 1, x);
      GoneIff(states[j - 1].fd, x);
      EndStaysGone(states[j - 1], states[j], acts[j - 1], x);
      GoneIff(states[j].fd, x);
    }
  }

  /**
    Over every run: once "closed" is answered, the opposite end is unmapped in every later state, if and only if
    the slots half-way through close or dup are as many as those waiting for their data page in a fork.
   */
  lemma ClosedForever(states: seq<Sys>, acts: seq<Act>, i: nat, slot: Slot)
    requires Run(states, acts) && Inv(states[0]) && AnswersClosed(states, acts, i, slot)
    ensures (forall j :: i < j <= |acts| ==> Open(states[j].fd, Opposite(states[i].fd[slot])) == {}) <==>
      |Late(states[i])| == |Waiting(states[i])|
  {
    var x := Opposite(states[i].fd[slot]);
    RunInv(states, acts, i);
    AnswerIff(states[i], states[i + 1], true, slot);
    assert states[i + 1].fd == states[i].fd;
    assert |Open(states[i].fd, x)| == 0 <==> Open(states[i].fd, x) == {};
    if |Late(states[i])| == |Waiting(states[i])| {
      forall j | i < j <= |acts| ensures Open(states[j].fd, x) == {} {
        StaysGone(states, acts, i, j, x);
      }
    }
  }

  /** In particular when no fork is under way. */
  lemma ClosedForeverNoFork(states: seq<Sys>, acts: seq<Act>, i: nat, j: nat, slot: Slot)
    requires Run(states, acts) && Inv(states[0]) && AnswersClosed(states, acts, i, slot) && i < j <= |acts|
    requires states[i].sweep == map[]
    ensures Open(states[j].fd, Opposite(states[i].fd[slot])) == {} && Late(states[i]) == {}
  {
    RunInv(states, acts, i);
    assert Waiting(states[i]) == {};
    AnswerIff(states[i], states[i + 1], true, slot);
    ClosedForever(states, acts, i, slot);
  }

  /** The steps of the call that the current environment is in. */
  predicate InCallAct(a: Act) {
    !a.Switch? && !a.CloseFd? && !a.DupStart? && !a.ForkStart? && !a.Exit? && !a.CheckStart?
  }

  /** No call gets stuck: the current environment can take its next step. */
  lemma NeverStuck(s: Sys)
    requires Inv(s) && s.PcOf(s.cur) != Idle
    ensures exists s', a :: Step(s, s', a) && InCallAct(a)
  {
    assert PcOk(s, s.cur);
    hide Inv, Step, PcOk;
    var p := s.PcOf(s.cur);
    if p.Forking? {
      SweepGoesOn(s);
    } else if p.CheckRuns? || p.CheckFd? || p.CheckBoth? {
      CheckGoesOn(s);
    } else {
      CloseGoesOn(s);
    }
  }

  lemma CloseGoesOn(s: Sys)
    requires var p := s.PcOf(s.cur); p.Closing? || p.DupClosing? || p.DupClosed? || p.DupData?
    ensures exists s', a :: Step(s, s', a) && InCallAct(a)
  {
    var p := s.PcOf(s.cur);
    match p
    case Closing(slot) => assert Step(s, s.(data := s.data - {slot}).With(s.cur, Idle), CloseData);
    case DupClosing(src, dst) =>
      assert Step(s, s.(data := s.data - {dst}).With(s.cur, DupClosed(src, dst)), DupCloseData);
    case DupClosed(src, dst) =>
      assert Step(s, s.(data := MapData(s.data, src, dst)).With(s.cur, DupData(src, dst)), DupMapData);
    case DupData(src, dst) => assert Step(s, s.(fd := MapFd(s.fd, src, dst)).With(s.cur, Idle), DupMapFd);
  }

  lemma SweepGoesOn(s: Sys)
    requires PcOk(s, s.cur) && s.PcOf(s.cur).Forking?
    ensures exists s', a :: Step(s, s', a) && InCallAct(a)
  {
    var child := s.PcOf(s.cur).child;
    var n := s.sweep[child];
    if n < 2 * MAXFD {
      assert Step(s, Swept(s, s.cur, child, n).(sweep := s.sweep[child := n + 1]), ForkPage);
    } else {
      assert Step(s, s.(sweep := s.sweep - {child}).With(s.cur, Idle), ForkEnd);
    }
  }

  lemma CheckGoesOn(s: Sys)
    requires var p := s.PcOf(s.cur); PcOk(s, s.cur) && (p.CheckRuns? || p.CheckFd? || p.CheckBoth?)
    ensures exists s', a :: Step(s, s', a) && InCallAct(a)
  {
    var p := s.PcOf(s.cur);
    match p
    case CheckRuns(slot, r) => assert Step(s, s.With(s.cur, CheckFd(slot, r, |Open(s.fd, s.fd[slot])|)), ReadFdRef);
    case CheckFd(slot, r, f) => assert Step(s, s.With(s.cur, CheckBoth(slot, r, f, |s.data|)), ReadPipeRef);
    case CheckBoth(slot, r, f, n) =>
      if r != s.RunsOf(s.cur) {
        assert Step(s, s.With(s.cur, CheckRuns(slot, s.RunsOf(s.cur))), Answer(false));
      } else {
        assert Step(s, s.With(s.cur, Idle), Answer(f == n));
      }
  }

  // ---- what close, dup and fork come to, whatever runs between their steps ----

  /** `e` is in a call from i to j. */
  ghost predicate InCall(states: seq<Sys>, acts: seq<Act>, i: nat, j: nat, e: nat) {
    && Run(states, acts) && i < j <= |acts| && Inv(states[i]) && states[i].cur == e
    && forall k: nat {:trigger states[k]} :: i < k < j ==> states[k].PcOf(e) != Idle
  }

  ghost predicate SameSlot(s: Sys, s': Sys, u: Slot) {
    (u in s'.fd <==> u in s.fd) && (u in s.fd ==> s'.fd[u] == s.fd[u]) && (u in s'.data <==> u in s.data)
  }

  ghost predicate DupAt(s: Sys, e: nat, src: Slot, dst: Slot) {
    var p := s.PcOf(e);
    p == DupClosing(src, dst) || p == DupClosed(src, dst) || p == DupData(src, dst)
  }

  lemma {:induction false} DupSoFar(states: seq<Sys>, acts: seq<Act>, i: nat, j: nat, src: Slot, dst: Slot)
    requires InCall(states, acts, i, j, src.env) && acts[i] == DupStart(src, dst)
    requires states[j].PcOf(src.env) != Idle
    ensures Inv(states[j]) && DupAt(states[j], src.env, src, dst)
    ensures src != dst ==> SameSlot(states[i], states[j], src)
  {
    var s, s', a := states[j - 1], states[j], acts[j - 1];
    if j > i + 1 {
      DupSoFar(states, acts, i, j - 1, src, dst);
      DupGoesOn(s, s', a, src, dst);
    } else {
      DupBegins(s, s', src, dst);
    }
    StepInv(s, s', a);
    hide Inv, Step, DupAt;
  }

  lemma DupBegins(s: Sys, s': Sys, src: Slot, dst: Slot)
    requires Step(s, s', DupStart(src, dst)) && s.cur == src.env
    ensures DupAt(s', src.env, src, dst) && (src != dst ==> SameSlot(s, s', src))
  {}

  lemma DupGoesOn(s: Sys, s': Sys, a: Act, src: Slot, dst: Slot)
    requires Inv(s) && Step(s, s', a) && DupAt(s, src.env, src, dst) && s'.PcOf(src.env) != Idle
    ensures DupAt(s', src.env, src, dst) && (src != dst ==> SameSlot(s, s', src))
  {
    if s.cur != src.env {
      OtherSlots(s, s', a, src.env);
      hide Step, Inv;
    }
  }

  /** dup: the new slot has what the old one had, end and data page; dup onto itself closes a slot. */
  lemma DupOpens(states: seq<Sys>, acts: seq<Act>, i: nat, j: nat, src: Slot, dst: Slot)
    requires InCall(states, acts, i, j, src.env) && acts[i] == DupStart(src, dst) && j < |acts|
    requires states[j].PcOf(src.env) != Idle && acts[j] == DupMapFd && states[j].cur == src.env
    ensures var s := states[j + 1];
      && (dst in s.fd <==> src != dst && src in states[i].fd) && (dst in s.fd ==> s.fd[dst] == states[i].fd[src])
      && (dst in s.data <==> src != dst && src in states[i].data)
  {
    DupSoFar(states, acts, i, j, src, dst);
    assert PcOk(states[j], src.env) && Step(states[j], states[j + 1], DupMapFd);
  }

  /** An environment that exits holds no slot any more, and every other keeps its own. */
  lemma ExitCloses(s: Sys, s': Sys, u: Slot)
    requires Step(s, s', Exit)
    ensures u.env == s.cur ==> u !in s'.fd && u !in s'.data
    ensures u.env != s.cur ==>
      && (u in s'.fd <==> u in s.fd) && (u in s'.data <==> u in s.data) && (u in s.fd ==> s'.fd[u] == s.fd[u])
  {}

  lemma {:induction false} CloseSoFar(states: seq<Sys>, acts: seq<Act>, i: nat, j: nat, slot: Slot)
    requires InCall(states, acts, i, j, slot.env) && acts[i] == CloseFd(slot) && states[j].PcOf(slot.env) != Idle
    ensures Inv(states[j]) && states[j].PcOf(slot.env) == Closing(slot)
  {
    var e := slot.env;
    if j > i + 1 { CloseSoFar(states, acts, i, j - 1, slot); }
    var s, s', a := states[j - 1], states[j], acts[j - 1];
    StepInv(s, s', a);
    if s.cur != e { OtherSlots(s, s', a, e); }
    hide Inv;
  }

  /** close: neither the descriptor nor the data page is left. */
  lemma CloseCloses(states: seq<Sys>, acts: seq<Act>, i: nat, j: nat, slot: Slot)
    requires InCall(states, acts, i, j, slot.env) && acts[i] == CloseFd(slot) && states[j].PcOf(slot.env) != Idle
    requires j < |acts| && acts[j] == CloseData && states[j].cur == slot.env
    ensures slot !in states[j + 1].fd && slot !in states[j + 1].data
  {
    CloseSoFar(states, acts, i, j, slot);
    assert PcOk(states[j], slot.env) && Step(states[j], states[j + 1], CloseData);
  }

  /** The child has what the parent has, as far as the sweep has come. */
  ghost predicate CopiedTo(s: Sys, e: nat, child: nat, n: nat) {
    && (forall f: nat {:trigger Slot(child, f)} {:trigger Slot(e, f)} ::
          (Slot(child, f) in s.fd <==> f < n && Slot(e, f) in s.fd) &&
          (Slot(child, f) in s.fd ==> s.fd[Slot(child, f)] == s.fd[Slot(e, f)]))
    && forall f: nat {:trigger Slot(child, f)} {:trigger Slot(e, f)} ::
         Slot(child, f) in s.data <==> MAXFD + f < n && Slot(e, f) in s.data
  }

  lemma {:induction false} ForkSoFar(states: seq<Sys>, acts: seq<Act>, i: nat, j: nat, e: nat, child: nat)
    requires InCall(states, acts, i, j, e) && acts[i] == ForkStart(child) && states[j].PcOf(e) != Idle
    ensures Inv(states[j]) && states[j].PcOf(e) == Forking(child) && child in states[j].sweep
    ensures SameSlots(states[i], states[j], e) && CopiedTo(states[j], e, child, states[j].sweep[child])
  {
    var s, s', a := states[j - 1], states[j], acts[j - 1];
    if j > i + 1 {
      ForkSoFar(states, acts, i, j - 1, e, child);
      ForkGoesOn(s, s', a, e, child);
      SlotsThen(states[i], s, s', e);
    } else {
      ForkBegins(s, s', e, child);
    }
    StepInv(s, s', a);
    hide Inv, Step;
  }

  lemma SlotsThen(s: Sys, s1: Sys, s2: Sys, e: nat)
    requires SameSlots(s, s1, e) && SameSlots(s1, s2, e)
    ensures SameSlots(s, s2, e)
  {}

  lemma ForkBegins(s: Sys, s': Sys, e: nat, child: nat)
    requires Inv(s) && Step(s, s', ForkStart(child)) && s.cur == e
    ensures s'.PcOf(e) == Forking(child) && child in s'.sweep && s'.sweep[child] == 0
    ensures SameSlots(s, s', e) && CopiedTo(s', e, child, 0)
  {}

  lemma ForkGoesOn(s: Sys, s': Sys, a: Act, e: nat, child: nat)
    requires Inv(s) && Step(s, s', a) && s.PcOf(e) == Forking(child) && s'.PcOf(e) != Idle
    requires child in s.sweep && CopiedTo(s, e, child, s.sweep[child])
    ensures s'.PcOf(e) == Forking(child) && child in s'.sweep
    ensures SameSlots(s, s', e) && CopiedTo(s', e, child, s'.sweep[child])
  {
    assert PcOk(s, e);
    hide SameSlots, CopiedTo;
    if s.cur != e {
      OtherSlots(s, s', a, e);
      CopiedSame(s, s', e, child, s.sweep[child]);
    } else if a == ForkPage {
      PageCopied(s, s', e, child);
    } else {
      assert s'.fd == s.fd && s'.data == s.data && s'.sweep == s.sweep;
      SlotsSelf(s, s', e);
      SlotsSelf(s, s', child);
      CopiedSame(s, s', e, child, s.sweep[child]);
    }
  }

  lemma SlotsSelf(s: Sys, s': Sys, e: nat)
    requires s'.fd == s.fd && s'.data == s.data
    ensures SameSlots(s, s', e)
  {}

  lemma CopiedSame(s: Sys, s': Sys, e: nat, child: nat, n: nat)
    requires SameSlots(s, s', e) && SameSlots(s, s', child) && CopiedTo(s, e, child, n)
    ensures CopiedTo(s', e, child, n)
  {}

  lemma PageCopied(s: Sys, s': Sys, e: nat, child: nat)
    requires Inv(s) && Step(s, s', ForkPage) && s.cur == e && s.PcOf(e) == Forking(child) && child != e
    requires child in s.sweep && CopiedTo(s, e, child, s.sweep[child])
    ensures child in s'.sweep && SameSlots(s, s', e) && CopiedTo(s', e, child, s'.sweep[child])
  {
    assert DataCovers(s);
  }

  /** fork: in the end the child has exactly the slots the parent had when it began, ends and data pages. */
  lemma ForkCopies(states: seq<Sys>, acts: seq<Act>, i: nat, j: nat, e: nat, child: nat, f: nat)
    requires InCall(states, acts, i, j, e) && acts[i] == ForkStart(child) && states[j].PcOf(e) != Idle
    requires j < |acts| && acts[j] == ForkEnd && states[j].cur == e
    ensures var s, s' := states[i], states[j + 1]; var u, v := Slot(e, f), Slot(child, f);
      && (v in s'.fd <==> u in s.fd) && (u in s.fd ==> s'.fd[v] == s.fd[u])
      && (f < MAXFD ==> (v in s'.data <==> u in s.data))
  {
    ForkSoFar(states, acts, i, j, e, child);
    assert Step(states[j], states[j + 1], ForkEnd) && DataCovers(states[i]);
  }

  // ---- the order of fork's sweep ----

  /** Where in a fork a slot waits: its maker's sweep is past the descriptor and not past the data page. */
  lemma WaitingIff(s: Sys, child: nat, f: nat)
    requires Inv(s) && child in s.sweep
    ensures Slot(child, f) in Waiting(s) <==> Slot(child, f) in s.fd && s.sweep[child] <= MAXFD + f
    ensures forall e: nat :: s.PcOf(e) == Forking(child) && Slot(child, f) in s.fd ==> Slot(e, f) in s.fd
  {
    forall e: nat | s.PcOf(e) == Forking(child) && Slot(child, f) in s.fd ensures Slot(e, f) in s.fd {
      assert PcOk(s, e);
    }
  }

  /**
    Over every run, an answer "closed" is wrong, the opposite end being open, exactly when the forks under way
    have together as many slots waiting for their data page as the opposite end has open and others have left
    half-closed.
   */
  lemma WrongAnswerIff(states: seq<Sys>, acts: seq<Act>, i: nat, closed: bool, slot: Slot)
    requires Run(states, acts) && Inv(states[0]) && i < |acts| && acts[i] == Answer(closed) && Checked(states[i], slot)
    ensures slot in states[i].fd
    ensures var opp := Open(states[i].fd, Opposite(states[i].fd[slot]));
      closed && opp != {} <==> opp != {} && |Waiting(states[i])| == |opp| + |Late(states[i])|
    ensures closed && Open(states[i].fd, Opposite(states[i].fd[slot])) != {} ==>
      exists child: nat, f: nat :: child in states[i].sweep && Slot(child, f) in states[i].fd
        && Between(f, states[i].sweep[child])
  {
    RunInv(states, acts, i);
    AnswerIff(states[i], states[i + 1], closed, slot);
    var opp := Open(states[i].fd, Opposite(states[i].fd[slot]));
    if closed && opp != {} {
      assert |opp| > 0;
      assert Waiting(states[i]) != {};
      var u :| u in Waiting(states[i]);
      assert u == Slot(u.env, u.fd);
    }
  }

  /** The run: environment 0 forks 3 and has mapped its descriptor 0, then 1 runs and checks. */
  function MisledState(k: nat): Sys {
    var fd := map[Slot(0, 0) := Wr, Slot(1, 0) := Wr, Slot(2, 0) := Rd];
    var data := {Slot(0, 0), Slot(1, 0), Slot(2, 0)};
    var fd' := fd[Slot(3, 0) := Wr];
    var pc := map[0 := Forking(3)];
    if k == 0 then Sys(fd, data, 0, map[], map[], map[])
    else if k == 1 then Sys(fd, data, 0, map[], pc, map[3 := 0])
    else if k == 2 then Sys(fd', data, 0, map[], pc, map[3 := 1])
    else Sys(fd', data, 1, map[1 := 1],
             if k == 3 then pc
             else if k == 4 then pc[1 := CheckRuns(Slot(1, 0), 1)]
             else if k == 5 then pc[1 := CheckFd(Slot(1, 0), 1, 3)]
             else if k == 6 then pc[1 := CheckBoth(Slot(1, 0), 1, 3, 3)]
             else pc[1 := Idle],
             map[3 := 1])
  }

  function MisledAct(k: nat): Act {
    if k == 0 then ForkStart(3) else if k == 1 then ForkPage else if k == 2 then Switch(1, 1)
    else if k == 3 then CheckStart(Slot(1, 0)) else if k == 4 then ReadFdRef else if k == 5 then ReadPipeRef
    else Answer(true)
  }

  lemma MisledCounts()
    ensures |Open(MisledState(2).fd, Wr)| == 3 && |MisledState(2).data| == 3
    ensures Open(MisledState(2).fd, Rd) == {Slot(2, 0)}
  {
    assert Open(MisledState(2).fd, Wr) == {Slot(0, 0), Slot(1, 0), Slot(3, 0)};
  }

  lemma MisledStep(k: nat)
    requires k < 7
    ensures Step(MisledState(k), MisledState(k + 1), MisledAct(k))
  {
    if k < 3 { MisledFork(k); } else { MisledCheck(k); }
  }

  lemma MisledFork(k: nat)
    requires k < 3
    ensures Step(MisledState(k), MisledState(k + 1), MisledAct(k))
  {
    if k == 0 {
      assert MisledState(1).pc == MisledState(0).pc[0 := Forking(3)];
    } else if k == 1 {
      assert Slot(0, 0) in MisledState(1).fd && MisledState(2).sweep == MisledState(1).sweep[3 := 1];
    } else {
      assert MisledState(3).runs == MisledState(2).runs[1 := 1];
    }
  }

  lemma MisledCheck(k: nat)
    requires 3 <= k < 7
    ensures Step(MisledState(k), MisledState(k + 1), MisledAct(k))
  {
    hide Open;
    MisledCounts();
    assert MisledState(k).fd == MisledState(2).fd && MisledState(k).data == MisledState(2).data;
  }

  lemma MisledEnds()
    ensures Inv(MisledState(0)) && MisledState(0).pc == map[] && MisledState(0).data == MisledState(0).fd.Keys
    ensures Checked(MisledState(6), Slot(1, 0)) && Slot(1, 0) in MisledState(6).fd
    ensures MisledState(6).fd[Slot(1, 0)] == Wr && Open(MisledState(7).fd, Rd) == {Slot(2, 0)}
  {
    MisledCounts();
    var s := MisledState(0);
    assert MisledState(7).fd == MisledState(2).fd;
    forall e: nat ensures PcOk(s, e) { assert s.PcOf(e) == Idle; }
  }

  /**
    fork maps a child's descriptor page before its data page. Between the two a writer is told "closed" although
    a reader is there: a run of seven steps from a state in which every slot has both its pages.
   */
  lemma ForkSweepMisleads() returns (states: seq<Sys>, acts: seq<Act>)
    ensures Run(states, acts) && Inv(states[0]) && states[0].pc == map[] && states[0].data == states[0].fd.Keys
    ensures |acts| == 7 && acts[6] == Answer(true) && Checked(states[6], Slot(1, 0))
    ensures Slot(1, 0) in states[6].fd && states[6].fd[Slot(1, 0)] == Wr && Open(states[7].fd, Rd) == {Slot(2, 0)}
  {
    states, acts := seq(8, k requires 0 <= k < 8 => MisledState(k)), seq(7, k requires 0 <= k < 7 => MisledAct(k));
    hide Step, MisledState, Inv, Checked, Open;
    MisledEnds();
    forall k: nat | k < |acts| ensures Step(states[k], states[k + 1], acts[k]) { MisledStep(k); }
  }
}
