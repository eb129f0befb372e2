/** Run queue, scheduler and IPC as a state machine. */
module Sched {
  // Its steps are whole kernel entries (kern/sched.c, kern/env.c, kern/syscall_all.c).

  import opened Queue

  const NONE: int := -1
  const PTE_V: bv12 := 0x200
  const E_INVAL: int := 3
  const E_IPC_NOT_RECV: int := 7

  datatype Status = FREE | RUNNABLE | NOT_RUNNABLE

  // The message part of an environment: what the last send left there.
  datatype Message = Message(value: nat, from: nat, perm: bv12)

  datatype Env = Env(status: Status, pri: nat, runs: nat, id: nat, recving: bool, msg: Message)

  // env_sched_list, the environments, curenv (an index or NONE) and schedule's static count.
  datatype Sys = Sys(queue: seq<nat>, envs: seq<Env>, cur: int, count: int)

  // What the page argument of a send is worth: none given, not a user address, mapped in the sender, or not mapped
  // there.
  datatype Src = NoPage | Illegal | Mapped | Unmapped

  datatype Op =
    | Timer
    | Yield
    | Recv
    | Send(to: nat, value: nat, src: Src, perm: bv12)
    | SetStatus(env: nat, status: Status)
    | Exofork(child: nat, id: nat)
    | Destroy(env: nat)

  function Without(q: seq<nat>, e: nat): (r: seq<nat>)
    ensures forall x :: x in r <==> x in q && x != e
  {
    if q == [] then []
    else if q[0] == e then Without(q[1..], e)
    else [q[0]] + Without(q[1..], e)
  }

  lemma {:induction false} WithoutNoDup(q: seq<nat>, e: nat)
    requires NoDup(q)
    ensures NoDup(Without(q, e)) && NoDup(Without(q, e) + [e])
  {
    if q != [] {
      WithoutNoDup(q[1..], e);
      assert q[0] !in q[1..];
      var r := Without(q[1..], e);
      assert forall i :: 0 <= i < |r| ==> r[i] in r;
    }
  }

  lemma {:induction false} WithoutIsCut(q: seq<nat>, k: nat)
    requires NoDup(q) && k < |q|
    ensures Without(q, q[k]) == Cut(q, k, k + 1)
  {
    assert forall i :: 0 <= i < |q[1..]| ==> q[1..][i] == q[i + 1];
    if k == 0 {
      WithoutAbsent(q[1..], q[0]);
    } else {
      WithoutIsCut(q[1..], k - 1);
      hide Without;
      assert Cut(q, k, k + 1) == [q[0]] + Cut(q[1..], k - 1, k);
      assert q[0] != q[k];
      WithoutNext(q, q[k]);
    }
  }

  lemma WithoutNext(q: seq<nat>, e: nat)
    requires q != [] && q[0] != e
    ensures Without(q, e) == [q[0]] + Without(q[1..], e)
  {
  }

  lemma {:induction false} WithoutAbsent(q: seq<nat>, e: nat)
    requires e !in q
    ensures Without(q, e) == q
  {
    if q != [] {
      WithoutAbsent(q[1..], e);
    }
  }

  // ---- the specification of one kernel entry ----

  datatype Outcome = Next(s: Sys) | Panic

  function RunEnv(s: Sys, e: nat): Sys
    requires e < |s.envs|
  {
    s.(cur := e, envs := s.envs[e := s.envs[e].(runs := s.envs[e].runs + 1)])
  }

  /** `schedule`: the current environment again, or the head of the queue once the current one has gone to the tail. */
  function Schedule(s: Sys, yielding: bool): Outcome
    requires -1 <= s.cur < |s.envs|
  {
    if s.cur == NONE || s.count - 1 == 0 || s.envs[s.cur].status != RUNNABLE || yielding then
      var q := if s.cur == NONE then s.queue
               else Without(s.queue, s.cur) + (if s.envs[s.cur].status == RUNNABLE then [s.cur] else []);
      if q == [] || q[0] >= |s.envs| then Panic
      else
        var e := q[0];
        var s' := s.(queue := q, count := s.envs[e].pri, envs := s.envs[e := s.envs[e].(runs := s.envs[e].runs + 1)]);
        Next(RunEnv(s', e))
    else Next(RunEnv(s.(count := s.count - 1), s.cur))
  }

  /** The caller of sys_ipc_recv, waiting and out of the queue. */
  function Blocked(s: Sys): Sys
    requires 0 <= s.cur < |s.envs|
  {
    s.(envs := s.envs[s.cur := s.envs[s.cur].(recving := true, status := NOT_RUNNABLE)],
       queue := Without(s.queue, s.cur))
  }

  function OpStep(s: Sys, op: Op): Outcome
    requires 0 <= s.cur < |s.envs|
  {
    match op
    case Timer => Schedule(s, false)
    case Yield => Schedule(s, true)
    case Recv => Schedule(Blocked(s), true)
    case Send(to, value, src, perm) =>
      if src == Illegal || to >= |s.envs| || !s.envs[to].recving then Next(s)
      else
        var e := s.envs[to].(msg := Message(value, s.envs[s.cur].id, PTE_V | perm), recving := false,
                              status := RUNNABLE);
        Next(s.(envs := s.envs[to := e], queue := s.queue + [to]))
    case SetStatus(e, status) =>
      if e >= |s.envs| || status == FREE then Next(s)
      else
        var q := if s.envs[e].status == RUNNABLE && status == NOT_RUNNABLE then Without(s.queue, e)
                 else if s.envs[e].status == NOT_RUNNABLE && status == RUNNABLE then s.queue + [e]
                 else s.queue;
        Next(s.(queue := q, envs := s.envs[e := s.envs[e].(status := status)]))
    case Exofork(child, id) =>
      if child >= |s.envs| then Next(s)
      else
        var c := s.envs[child];
        Next(s.(envs := s.envs[child := c.(status := NOT_RUNNABLE, pri := s.envs[s.cur].pri, id := id, runs := 0)]))
    case Destroy(e) =>
      if e >= |s.envs| then Next(s)
      else
        var s' := s.(envs := s.envs[e := s.envs[e].(status := FREE)], queue := Without(s.queue, e));
        if e == s.cur then Schedule(s'.(cur := NONE), true) else Next(s')
  }

  /** The value a system call returns to its caller, when it returns. */
  function SendResult(s: Sys, to: nat, src: Src): int {
    if src == Illegal then -E_INVAL
    else if to >= |s.envs| || !s.envs[to].recving then -E_IPC_NOT_RECV
    else if src == Unmapped then -E_INVAL
    else 0
  }

  /**
    What the programs are trusted with: sys_set_env_status is not used on the caller or on an
    environment blocked in receive, and only runnable environments are destroyed; a new environment
    takes a free place.
   */
  predicate Polite(s: Sys, op: Op)
    requires 0 <= s.cur < |s.envs|
  {
    match op
    case SetStatus(e, _) => e < |s.envs| ==> e != s.cur && !s.envs[e].recving && s.envs[e].status != FREE
    case Exofork(child, _) => child < |s.envs| ==> s.envs[child].status == FREE
    case Destroy(e) => e < |s.envs| ==> s.envs[e].status == RUNNABLE
    case _ => true
  }

  // ---- the invariant ----

  /** env_sched_list holds exactly the RUNNABLE environments, each once. */
  ghost predicate QueueOk(s: Sys) {
    && NoDup(s.queue)
    && forall e: nat {:trigger e in s.queue} :: e in s.queue <==> e < |s.envs| && s.envs[e].status == RUNNABLE
  }

  ghost predicate EnvsOk(s: Sys) {
    forall e: nat {:trigger s.envs[e]} :: e < |s.envs| ==>
      && (s.envs[e].recving ==> s.envs[e].status == NOT_RUNNABLE)
      && (s.envs[e].status != FREE ==> s.envs[e].pri >= 1)
  }

  /** Between kernel entries a runnable environment runs, at the head of the queue, with time left. */
  ghost predicate Inv(s: Sys) {
    && QueueOk(s) && EnvsOk(s)
    && 0 <= s.cur < |s.envs| && s.queue != [] && s.queue[0] == s.cur && s.count >= 1
  }

  /** `schedule` establishes the invariant from a good queue, whatever the current environment is. */
  lemma ScheduleInv(s: Sys, yielding: bool)
    requires QueueOk(s) && EnvsOk(s) && -1 <= s.cur < |s.envs|
    requires s.cur != NONE && s.envs[s.cur].status == RUNNABLE ==> s.queue != [] && s.queue[0] == s.cur && s.count >= 1
    ensures Schedule(s, yielding) == Panic <==> s.queue == []
    ensures Schedule(s, yielding).Next? ==> Inv(Schedule(s, yielding).s)
  {
    var q := s.queue;
    if s.cur != NONE {
      WithoutNoDup(s.queue, s.cur);
      q := Without(s.queue, s.cur) + (if s.envs[s.cur].status == RUNNABLE then [s.cur] else []);
      assert forall e: nat :: e in q <==> e in s.queue;
    }
    assert q != [] ==> q[0] in q && q[0] in s.queue;
    assert s.queue != [] ==> s.queue[0] in q;
  }

  /**
    What `schedule` does for a running environment: it goes on, one slice less, or gives way, going to the tail, to
    the next in the queue, which gets as many slices as its priority.
   */
  lemma ScheduleSays(s: Sys, yielding: bool)
    requires Inv(s)
    ensures Schedule(s, yielding).Next?
    ensures var s' := Schedule(s, yielding).s; var q := s.queue;
      if yielding || s.count == 1 then
        && s'.queue == q[1..] + [q[0]] && s'.cur == s'.queue[0] < |s.envs| && s'.count == s.envs[s'.cur].pri
        && s'.envs == s.envs[s'.cur := s.envs[s'.cur].(runs := s.envs[s'.cur].runs + 2)]
      else
        && s'.queue == q && s'.cur == s.cur && s'.count == s.count - 1
        && s'.envs == s.envs[s.cur := s.envs[s.cur].(runs := s.envs[s.cur].runs + 1)]
  {
    InQueue(s);
    HeadGone(s.queue);
    assert (s.queue[1..] + [s.cur])[0] in s.queue;
  }

  /** With the current environment gone or out of the queue, the head runs. */
  lemma HeadRuns(s: Sys)
    requires -1 <= s.cur < |s.envs| && (s.cur == NONE || (s.cur !in s.queue && s.envs[s.cur].status != RUNNABLE))
    requires forall i :: 0 <= i < |s.queue| ==> s.queue[i] < |s.envs|
    ensures Schedule(s, true) == if s.queue == [] then Panic else
      var e := s.queue[0]; var f := s.envs[e];
      Next(s.(cur := e, count := f.pri, envs := s.envs[e := f.(runs := f.runs + 2)]))
  {
    if s.cur != NONE { WithoutAbsent(s.queue, s.cur); }
  }

  /** The caller of sys_ipc_recv gives way too, and does not go to the tail. */
  lemma RecvSays(s: Sys)
    requires Inv(s)
    ensures OpStep(s, Recv).Panic? <==> |s.queue| == 1
    ensures OpStep(s, Recv).Next? ==> var s' := OpStep(s, Recv).s;
      && s'.queue == s.queue[1..] && s'.cur == s.queue[1] < |s.envs| && s'.count == s.envs[s'.cur].pri
      && s'.envs == s.envs[s.cur := s.envs[s.cur].(recving := true, status := NOT_RUNNABLE)]
                          [s'.cur := s.envs[s'.cur].(runs := s.envs[s'.cur].runs + 2)]
  {
    RestOfQueue(s);
    HeadRuns(Blocked(s));
    hide Schedule, Without;
  }

  /** Without the head: the rest, of other environments. */
  lemma RestOfQueue(s: Sys)
    requires Inv(s)
    ensures Without(s.queue, s.cur) == s.queue[1..] && s.cur !in s.queue[1..]
    ensures forall i :: 0 <= i < |s.queue| ==> s.queue[i] < |s.envs|
    ensures |s.queue| > 1 ==> s.queue[1..][0] == s.queue[1] && s.queue[1] in s.queue && s.queue[1] != s.cur
  {
    InQueue(s);
    HeadGone(s.queue);
  }

  /** The place of a destroyed environment is free, and the next in the queue runs if it was the current one. */
  lemma DestroySays(s: Sys, e: nat)
    requires Inv(s) && e in s.queue
    ensures OpStep(s, Destroy(e)).Panic? <==> e == s.cur && |s.queue| == 1
    ensures OpStep(s, Destroy(e)).Next? ==> var s' := OpStep(s, Destroy(e)).s;
      && e < |s.envs|
      && if e != s.cur then
        && s'.queue == Without(s.queue, e) && s'.cur == s.cur && s'.count == s.count
        && s'.envs == s.envs[e := s.envs[e].(status := FREE)]
      else
        && s'.queue == s.queue[1..] && s'.cur == s.queue[1] < |s.envs| && s'.count == s.envs[s'.cur].pri
        && s'.envs == s.envs[e := s.envs[e].(status := FREE)]
                            [s'.cur := s.envs[s'.cur].(runs := s.envs[s'.cur].runs + 2)]
  {
    RestOfQueue(s);
    if e == s.cur {
      HeadRuns(s.(envs := s.envs[e := s.envs[e].(status := FREE)], queue := Without(s.queue, e), cur := NONE));
    }
    hide Schedule, Without;
  }

  lemma InQueue(s: Sys)
    requires Inv(s)
    ensures s.cur in s.queue && s.envs[s.cur].status == RUNNABLE && forall i :: 0 <= i < |s.queue| ==>
      s.queue[i] in s.queue
  {
    assert s.queue[0] in s.queue;
  }

  lemma RecvInv(s: Sys)
    requires Inv(s)
    ensures OpStep(s, Recv).Next? ==> Inv(OpStep(s, Recv).s)
  {
    InQueue(s);
    WithoutNoDup(s.queue, s.cur);
    hide Schedule, Without;
    ScheduleInv(s.(envs := s.envs[s.cur := s.envs[s.cur].(recving := true, status := NOT_RUNNABLE)],
                   queue := Without(s.queue, s.cur)), true);
  }

  lemma AppendNoDup(q: seq<nat>, e: nat)
    requires NoDup(q) && e !in q
    ensures NoDup(q + [e]) && (q != [] ==> (q + [e])[0] == q[0])
    ensures forall x :: x in q + [e] <==> x in q || x == e
  {
    assert forall i :: 0 <= i < |q| ==> q[i] in q;
  }

  lemma SetStatusInv(s: Sys, e: nat, status: Status)
    requires Inv(s) && Polite(s, SetStatus(e, status))
    ensures Inv(OpStep(s, SetStatus(e, status)).s)
  {
    if e < |s.envs| && status != FREE {
      InQueue(s);
      assert e in s.queue <==> s.envs[e].status == RUNNABLE;
      if s.envs[e].status == RUNNABLE && status == NOT_RUNNABLE {
        WithoutNoDup(s.queue, e);
        WithoutHead(s.queue, e);
      } else if s.envs[e].status == NOT_RUNNABLE && status == RUNNABLE {
        AppendNoDup(s.queue, e);
      }
      hide Without, NoDup, Schedule;
      SetStatusOk(s, OpStep(s, SetStatus(e, status)).s, e, status);
    }
  }

  lemma SetStatusOk(s: Sys, s': Sys, e: nat, status: Status)
    requires Inv(s) && e < |s.envs| && e != s.cur && !s.envs[e].recving && s.envs[e].status != FREE && status != FREE
    requires s'.envs == s.envs[e := s.envs[e].(status := status)] && s'.cur == s.cur && s'.count == s.count
    requires NoDup(s'.queue) && s'.queue != [] && s'.queue[0] == s.cur
    requires forall x: nat {:trigger x in s'.queue} :: x in s'.queue <==>
      if x == e then status == RUNNABLE else x in s.queue
    ensures Inv(s')
  {
    hide NoDup;
  }

  lemma DestroyInv(s: Sys, e: nat)
    requires Inv(s) && Polite(s, Destroy(e))
    ensures OpStep(s, Destroy(e)).Next? ==> Inv(OpStep(s, Destroy(e)).s)
  {
    InQueue(s);
    WithoutNoDup(s.queue, e);
    if e != s.cur { WithoutHead(s.queue, e); }
    hide Schedule, Without;
    if e == s.cur {
      ScheduleInv(s.(envs := s.envs[e := s.envs[e].(status := FREE)], queue := Without(s.queue, e), cur := NONE), true);
    }
  }

  lemma OpInv(s: Sys, op: Op)
    requires Inv(s) && Polite(s, op)
    ensures OpStep(s, op).Next? ==> Inv(OpStep(s, op).s)
  {
    InQueue(s);
    match op
    case Timer => ScheduleInv(s, false);
    case Yield => ScheduleInv(s, true);
    case Recv => RecvInv(s);
    case Send(to, value, src, perm) => SendInv(s, op);
    case SetStatus(e, status) => SetStatusInv(s, e, status);
    case Exofork(child, id) => hide Schedule, Without;
    case Destroy(e) => DestroyInv(s, e);
  }

  lemma SendInv(s: Sys, op: Op)
    requires Inv(s) && op.Send?
    ensures Inv(OpStep(s, op).s)
  {
    InQueue(s);
    hide Schedule, Without;
  }

  lemma WithoutHead(q: seq<nat>, e: nat)
    requires q != [] && q[0] != e
    ensures Without(q, e) != [] && Without(q, e)[0] == q[0]
  {
  }

  // ---- runs ----

  ghost predicate Run(states: seq<Sys>, ops: seq<Op>) {
    && |states| == |ops| + 1 && Inv(states[0])
    && forall i :: 0 <= i < |ops| ==> StepOk(states[i], ops[i], states[i + 1])
  }

  ghost predicate StepOk(s: Sys, op: Op, s': Sys) {
    0 <= s.cur < |s.envs| && Polite(s, op) && OpStep(s, op) == Next(s')
  }

  lemma {:induction false} RunInv(states: seq<Sys>, ops: seq<Op>, n: nat)
    requires Run(states, ops) && n < |states|
    ensures Inv(states[n])
  {
    if n > 0 {
      RunInv(states, ops, n - 1);
      assert StepOk(states[n - 1], ops[n - 1], states[n]);
      OpInv(states[n - 1], ops[n - 1]);
    }
  }

  // ---- bounded waiting ----

  /** The operations that go through `schedule`. */
  predicate Schedules(s: Sys, op: Op) {
    op == Timer || op == Yield || op == Recv || (op.Destroy? && op.env == s.cur)
  }

  /** The sum of the priorities of those in `q` before `e`. */
  function Before(envs: seq<Env>, q: seq<nat>, e: nat): nat {
    if q == [] || q[0] == e then 0
    else (if q[0] < |envs| then envs[q[0]].pri else 0) + Before(envs, q[1..], e)
  }

  /** Time slices ahead of a queued environment: what is left to the head, and the turns of those between. */
  function Ahead(s: Sys, e: nat): int
    requires s.queue != []
  {
    s.count + Before(s.envs, s.queue[1..], e)
  }

  ghost predicate SamePri(envs: seq<Env>, envs': seq<Env>, q: seq<nat>) {
    |envs| == |envs'| && forall x: nat :: x in q && x < |envs| ==> envs[x].pri == envs'[x].pri
  }

  lemma {:induction false} BeforeSame(envs: seq<Env>, envs': seq<Env>, q: seq<nat>, e: nat)
    requires SamePri(envs, envs', q)
    ensures Before(envs, q, e) == Before(envs', q, e)
  {
    if q != [] {
      assert q[0] in q;
      BeforeSame(envs, envs', q[1..], e);
    }
  }

  lemma {:induction false} BeforeAppend(envs: seq<Env>, p: seq<nat>, q: seq<nat>, e: nat)
    requires e in p
    ensures Before(envs, p + q, e) == Before(envs, p, e)
  {
    if p[0] != e {
      assert (p + q)[1..] == p[1..] + q;
      BeforeAppend(envs, p[1..], q, e);
    }
  }

  lemma {:induction false} BeforeWithout(envs: seq<Env>, q: seq<nat>, x: nat, e: nat)
    requires x != e && e in q
    ensures Before(envs, Without(q, x), e) <= Before(envs, q, e)
  {
    if q[0] != e {
      BeforeWithout(envs, q[1..], x, e);
    }
  }

  /** Removing the head leaves the rest; sending it to the tail as well. */
  lemma HeadGone(q: seq<nat>)
    requires q != [] && NoDup(q)
    ensures Without(q, q[0]) == q[1..]
  {
    WithoutIsCut(q, 0);
  }

  /** When the head loses its turn, the wait of those behind it shrinks by all the head still had. */
  lemma TurnOver(envs: seq<Env>, envs': seq<Env>, q: seq<nat>, tail: seq<nat>, e: nat)
    requires q != [] && e in q && q[0] != e && SamePri(envs, envs', q)
    requires forall x: nat :: x in q ==> x < |envs|
    ensures |q| > 1 && q[1] < |envs'|
    ensures q[1] != e ==>
      envs'[q[1]].pri + Before(envs', (q[1..] + tail)[1..], e) == Before(envs, q[1..], e)
  {
    var q' := q[1..] + tail;
    assert q[1] in q;
    if q[1] != e {
      assert e in q[2..] && q'[1..] == q[2..] + tail && q[1..][1..] == q[2..];
      BeforeAppend(envs', q[2..], tail, e);
      BeforeSame(envs, envs', q[2..], e);
    }
  }

  /**
    One kernel entry, for an environment that is queued before and after, behind the head: either it
    reaches the head, or its wait does not grow, and shrinks if the entry goes through `schedule`.
   */
  lemma WaitStep(s: Sys, op: Op, s': Sys, e: nat)
    requires Inv(s) && Inv(s') && StepOk(s, op, s')
    requires e in s.queue && s.queue[0] != e && e in s'.queue && s'.queue[0] != e
    ensures Ahead(s', e) <= Ahead(s, e) - (if Schedules(s, op) then 1 else 0)
  {
    match op
    case Timer => WaitSchedule(s, false, s', e);
    case Yield => WaitSchedule(s, true, s', e);
    case Recv => WaitRecv(s, op, s', e);
    case Destroy(x) => WaitDestroy(s, op, s', e);
    case SetStatus(x, status) => WaitSetStatus(s, op, s', e);
    case Send(_, _, _, _) => WaitAppended(s, s', e);
    case Exofork(_, _) => WaitAppended(s, s', e);
  }

  lemma WaitSchedule(s: Sys, yielding: bool, s': Sys, e: nat)
    requires Inv(s) && Schedule(s, yielding) == Next(s')
    requires e in s.queue && s.queue[0] != e && s'.queue != [] && s'.queue[0] != e
    ensures Ahead(s', e) <= Ahead(s, e) - 1
  {
    HeadGone(s.queue);
    assert s.queue[0] in s.queue;
    if s.count == 1 || yielding {
      TurnOver(s.envs, s'.envs, s.queue, [s.cur], e);
    } else {
      assert s'.queue == s.queue && s'.count == s.count - 1;
      BeforeSame(s.envs, s'.envs, s.queue[1..], e);
    }
  }

  lemma WaitRecv(s: Sys, op: Op, s': Sys, e: nat)
    requires Inv(s) && StepOk(s, op, s') && op.Recv?
    requires e in s.queue && s.queue[0] != e && s'.queue != [] && s'.queue[0] != e
    ensures Ahead(s', e) <= Ahead(s, e) - 1
  {
    HeadGone(s.queue);
    WithoutAbsent(s.queue[1..], s.cur);
    WaitHeadLeaves(s, s', e);
  }

  lemma WaitDestroy(s: Sys, op: Op, s': Sys, e: nat)
    requires Inv(s) && StepOk(s, op, s') && op.Destroy?
    requires e in s.queue && s.queue[0] != e && e in s'.queue && s'.queue[0] != e
    ensures Ahead(s', e) <= Ahead(s, e) - (if op.env == s.cur then 1 else 0)
  {
    if op.env == s.cur {
      HeadGone(s.queue);
      WaitHeadLeaves(s, s', e);
    } else if op.env < |s.envs| {
      WaitRemoved(s, s', op.env, e);
    }
  }

  lemma WaitSetStatus(s: Sys, op: Op, s': Sys, e: nat)
    requires Inv(s) && StepOk(s, op, s') && op.SetStatus?
    requires e in s.queue && s.queue[0] != e && e in s'.queue && s'.queue[0] != e
    ensures Ahead(s', e) <= Ahead(s, e)
  {
    if op.env < |s.envs| && s.envs[op.env].status == RUNNABLE && op.status == NOT_RUNNABLE {
      WaitRemoved(s, s', op.env, e);
    } else {
      WaitAppended(s, s', e);
    }
  }

  lemma WaitHeadLeaves(s: Sys, s': Sys, e: nat)
    requires Inv(s) && e in s.queue && s.queue[0] != e && s'.queue == s.queue[1..] && s'.queue[0] != e
    requires SamePri(s.envs, s'.envs, s.queue) && s'.queue[0] < |s'.envs| && s'.count == s'.envs[s'.queue[0]].pri
    ensures Ahead(s', e) <= Ahead(s, e) - 1
  {
    TurnOver(s.envs, s'.envs, s.queue, [], e);
    assert s.queue[1..] + [] == s.queue[1..];
  }

  lemma WaitRemoved(s: Sys, s': Sys, x: nat, e: nat)
    requires Inv(s) && e in s.queue && s.queue[0] != e && x != e && x != s.cur && s'.queue == Without(s.queue, x)
    requires SamePri(s.envs, s'.envs, s.queue) && s'.count == s.count
    ensures s'.queue != [] && Ahead(s', e) <= Ahead(s, e)
  {
    BeforeWithout(s.envs, s.queue[1..], x, e);
    BeforeSame(s.envs, s'.envs, Without(s.queue[1..], x), e);
  }

  lemma WaitAppended(s: Sys, s': Sys, e: nat)
    requires Inv(s) && e in s.queue && s.queue[0] != e && s.queue <= s'.queue
    requires SamePri(s.envs, s'.envs, s.queue) && s'.count == s.count
    ensures Ahead(s', e) == Ahead(s, e)
  {
    var tail := s'.queue[|s.queue|..];
    assert s'.queue[1..] == s.queue[1..] + tail;
    BeforeAppend(s'.envs, s.queue[1..], tail, e);
    BeforeSame(s.envs, s'.envs, s.queue[1..], e);
  }

  function CountSchedules(states: seq<Sys>, ops: seq<Op>): nat
    requires |states| == |ops| + 1
  {
    if ops == [] then 0
    else
      var n := |ops| - 1;
      CountSchedules(states[..n + 1], ops[..n]) + (if Schedules(states[n], ops[n]) then 1 else 0)
  }

  /**
    In every run, an environment that stays queued without reaching the head has seen fewer calls of
    `schedule` than the slices that were ahead of it: so it reaches the head within that many calls.
   */
  lemma {:induction false} BoundedWaiting(states: seq<Sys>, ops: seq<Op>, e: nat)
    requires Run(states, ops)
    requires forall i :: 0 <= i < |states| ==> e in states[i].queue && states[i].queue[0] != e
    ensures CountSchedules(states, ops) <= Ahead(states[0], e) - Ahead(states[|ops|], e)
    ensures CountSchedules(states, ops) < Ahead(states[0], e)
  {
    var n := |ops| - 1;
    RunInv(states, ops, |ops|);
    if ops != [] {
      assert Run(states[..n + 1], ops[..n]);
      BoundedWaiting(states[..n + 1], ops[..n], e);
      RunInv(states, ops, n);
      assert StepOk(states[n], ops[n], states[n + 1]);
      WaitStep(states[n], ops[n], states[n + 1], e);
    }
  }

  // ---- IPC rendezvous ----

  /** A send that finds its target waiting. */
  predicate Delivers(s: Sys, op: Op, e: nat) {
    op.Send? && op.src != Illegal && op.to == e && e < |s.envs| && s.envs[e].recving
  }

  /** What kernel entries do to the IPC part of `e`, if `e` does not call sys_ipc_recv itself. */
  lemma IpcFrame(s: Sys, op: Op, s': Sys, e: nat)
    requires Inv(s) && StepOk(s, op, s') && e < |s.envs| && !(op == Recv && s.cur == e)
    ensures |s'.envs| == |s.envs|
    ensures Delivers(s, op, e) ==>
      !s'.envs[e].recving && s'.envs[e].msg == Message(op.value, s.envs[s.cur].id, PTE_V | op.perm)
    ensures !Delivers(s, op, e) ==> s'.envs[e].recving == s.envs[e].recving && s'.envs[e].msg == s.envs[e].msg
  {
  }

  ghost predicate OneDelivery(states: seq<Sys>, ops: seq<Op>, i: nat, j: nat, e: nat, t: nat)
    requires |states| == |ops| + 1 && j < |states|
  {
    && i < t < j && Delivers(states[t], ops[t], e) && 0 <= states[t].cur < |states[t].envs| && e < |states[j].envs|
    && states[j].envs[e].msg == Message(ops[t].value, states[t].envs[states[t].cur].id, PTE_V | ops[t].perm)
    && forall u :: i < u < j && Delivers(states[u], ops[u], e) ==> u == t
  }

  lemma RecvWaits(s: Sys, s': Sys, e: nat)
    requires Inv(s) && StepOk(s, Recv, s') && s.cur == e
    ensures e < |s'.envs| && s'.envs[e].recving
  {
    hide Without;
  }

  /** What is known of the deliveries to `e` between i and j. */
  ghost predicate Tracked(states: seq<Sys>, ops: seq<Op>, i: nat, j: nat, e: nat)
    requires |states| == |ops| + 1 && i < j < |states|
  {
    && e < |states[j].envs|
    && (states[j].envs[e].recving ==> forall u :: i < u < j ==> !Delivers(states[u], ops[u], e))
    && (!states[j].envs[e].recving ==> exists t: nat :: OneDelivery(states, ops, i, j, e, t))
  }

  lemma {:induction false} IpcTrack(states: seq<Sys>, ops: seq<Op>, i: nat, j: nat, e: nat)
    requires Run(states, ops) && i < j < |states|
    requires ops[i] == Recv && states[i].cur == e
    requires forall t :: i < t < j && states[t].cur == e ==> ops[t] != Recv
    ensures Tracked(states, ops, i, j, e)
  {
    assert |states| == |ops| + 1;
    hide Run, OpStep, Inv, Tracked;
    if j == i + 1 {
      TrackFirst(states, ops, i, e);
    } else {
      IpcTrack(states, ops, i, j - 1, e);
      TrackNext(states, ops, i, j, e);
    }
  }

  lemma TrackFirst(states: seq<Sys>, ops: seq<Op>, i: nat, e: nat)
    requires Run(states, ops) && i < |ops| && ops[i] == Recv && states[i].cur == e
    ensures Tracked(states, ops, i, i + 1, e)
  {
    RunInv(states, ops, i);
    assert StepOk(states[i], ops[i], states[i + 1]);
    hide OpStep, Inv, Run;
    RecvWaits(states[i], states[i + 1], e);
  }

  lemma TrackNext(states: seq<Sys>, ops: seq<Op>, i: nat, j: nat, e: nat)
    requires Run(states, ops) && i + 1 < j < |states| && Tracked(states, ops, i, j - 1, e)
    requires states[j - 1].cur == e ==> ops[j - 1] != Recv
    ensures Tracked(states, ops, i, j, e)
  {
    RunInv(states, ops, j - 1);
    assert StepOk(states[j - 1], ops[j - 1], states[j]);
    hide OpStep, Inv, Run, OneDelivery;
    IpcFrame(states[j - 1], ops[j - 1], states[j], e);
    hide StepOk;
    TrackStep(states, ops, i, j, e);
  }

  lemma TrackStep(states: seq<Sys>, ops: seq<Op>, i: nat, j: nat, e: nat)
    requires |states| == |ops| + 1 && i + 1 < j < |states| && Tracked(states, ops, i, j - 1, e)
    requires |states[j].envs| == |states[j - 1].envs| && 0 <= states[j - 1].cur < |states[j - 1].envs|
    requires if Delivers(states[j - 1], ops[j - 1], e) then
        && !states[j].envs[e].recving
        && states[j].envs[e].msg ==
             Message(ops[j - 1].value, states[j - 1].envs[states[j - 1].cur].id, PTE_V | ops[j - 1].perm)
      else
        states[j].envs[e].recving == states[j - 1].envs[e].recving && states[j].envs[e].msg == states[j - 1].envs[e].msg
    ensures Tracked(states, ops, i, j, e)
  {
    if !states[j - 1].envs[e].recving {
      var t: nat :| OneDelivery(states, ops, i, j - 1, e, t);
      assert OneDelivery(states, ops, i, j, e, t);
    } else if Delivers(states[j - 1], ops[j - 1], e) {
      assert OneDelivery(states, ops, i, j, e, j - 1);
    }
  }

  /**
    When an environment that called sys_ipc_recv runs again, exactly one send has found it waiting since,
    and until it calls sys_ipc_recv again the value, the sender and the permission it reads are that send's.
   */
  lemma IpcRendezvous(states: seq<Sys>, ops: seq<Op>, i: nat, j: nat, e: nat)
    requires Run(states, ops) && i < j < |states|
    requires ops[i] == Recv && states[i].cur == e && states[j].cur == e
    requires forall t :: i < t < j && states[t].cur == e ==> ops[t] != Recv
    ensures exists t: nat :: OneDelivery(states, ops, i, j, e, t)
  {
    IpcTrack(states, ops, i, j, e);
    RunInv(states, ops, j);
    assert states[j].queue[0] in states[j].queue;
  }

  /**
    The message is stored and the receiver woken before the page argument is looked up: with an unmapped
    `srcva` the sender is told -E_INVAL although its message has arrived. The result is 0 exactly when the
    target was waiting and the page argument is good.
   */
  lemma SendResultIff(s: Sys, to: nat, value: nat, src: Src, perm: bv12)
    requires Inv(s) && to < |s.envs|
    ensures SendResult(s, to, src) == 0 <==> s.envs[to].recving && (src == NoPage || src == Mapped)
    ensures var s' := OpStep(s, Send(to, value, src, perm)).s;
      (s'.envs[to].msg == Message(value, s.envs[s.cur].id, PTE_V | perm) && to in s'.queue && to !in s.queue)
        <==> s.envs[to].recving && src != Illegal
  {
    assert s.envs[to].recving ==> s.envs[to].status == NOT_RUNNABLE;
    assert to in s.queue <==> s.envs[to].status == RUNNABLE;
  }

  /** A run: environment 1 waits in sys_ipc_recv, 0 sends it a word with a page that it has not mapped. */
  lemma RefusedYetDelivered(value: nat) returns (states: seq<Sys>, ops: seq<Op>)
    ensures Run(states, ops) && ops == [Recv, Send(1, value, Unmapped, 0)]
    ensures states[0].cur == 1 && states[1].cur == 0 && 1 < |states[2].envs|
    ensures SendResult(states[1], 1, Unmapped) == -E_INVAL
    ensures states[2].envs[1].msg.value == value && states[2].envs[1].status == RUNNABLE && 1 in states[2].queue
  {
    var none := Message(0, 0, 0);
    var s0 := Sys([1, 0], [Env(RUNNABLE, 1, 0, 10, false, none), Env(RUNNABLE, 1, 1, 11, false, none)], 1, 1);
    var s1 := Sys([0], [Env(RUNNABLE, 1, 2, 10, false, none), Env(NOT_RUNNABLE, 1, 1, 11, true, none)], 0, 1);
    var s2 := Sys([0, 1], [s1.envs[0], Env(RUNNABLE, 1, 1, 11, false, Message(value, 10, PTE_V))], 0, 1);
    states, ops := [s0, s1, s2], [Recv, Send(1, value, Unmapped, 0)];
    assert Without([1, 0], 1) == [0] && Without([0], 1) == [0] by { assert [1, 0][1..] == [0] && [0][1..] == []; }
    assert PTE_V | 0 == PTE_V;
    assert StepOk(s0, Recv, s1);
    assert StepOk(s1, ops[1], s2);
    assert Inv(s0);
  }
}
