/**
  The kernel entries of Sched on the data the kernel keeps: the linked tail queue and the table of
  environments (kern/sched.c, kern/env.c, kern/syscall_all.c).
 */
module Kernel {
  import opened Queue
  import opened Sched

  class Scheduler {
    const list: TailQueue   // env_sched_list
    var envs: seq<Env>
    var cur: int            // curenv
    var count: int          // the static variable of `schedule`

    ghost predicate Valid()
      reads this, list
    {
      list.Valid() && list.n == |envs| && -1 <= cur < |envs|
    }

    ghost function View(): Sys
      reads this, list
    {
      Sys(list.contents, envs, cur, count)
    }

    /** TAILQ_REMOVE finds the current environment in the queue, or just taken out of it. */
    ghost predicate CurRemovable()
      reads this, list
      requires Valid()
    {
      cur == NONE || cur in list.contents || (envs[cur].status != RUNNABLE && exists k: nat :: list.Between(cur, k, k))
    }

    /** env_init: every environment is free and the queue empty. */
    constructor (nenv: nat)
      ensures Valid() && fresh(list) && |envs| == nenv && cur == NONE && count == 0 && list.contents == []
      ensures QueueOk(View()) && EnvsOk(View())
      ensures forall e: nat :: e < nenv ==> envs[e] == Env(FREE, 0, 0, 0, false, Message(0, 0, 0))
    {
      list := new TailQueue(nenv);
      envs := seq(nenv, _ => Env(FREE, 0, 0, 0, false, Message(0, 0, 0)));
      cur := NONE;
      count := 0;
    }

    method EnvRun(e: nat)
      requires e < |envs|
      modifies this
      ensures View() == RunEnv(old(View()), e) && list.contents == old(list.contents)
    {
      cur := e;
      envs := envs[cur := envs[cur].(runs := envs[cur].runs + 1)];
    }

    /** schedule: does not return to its caller; `panic` says that it found nothing to run. */
    method Schedule(yielding: bool) returns (panic: bool)
      requires Valid() && CurRemovable()
      modifies this, list
      ensures Valid()
      ensures panic <==> Sched.Schedule(old(View()), yielding).Panic?
      ensures !panic ==> View() == Sched.Schedule(old(View()), yielding).s
    {
      ghost var k: nat := if cur != NONE && cur !in list.contents && envs[cur].status != RUNNABLE
        then var k: nat :| list.Between(cur, k, k); k else 0;
      count := count - 1;
      assert cur != NONE && cur !in list.contents ==> list.Between(cur, k, k);
      if cur == NONE || count == 0 || envs[cur].status != RUNNABLE || yielding {
        if cur != NONE {
          RemoveCur();
          if envs[cur].status == RUNNABLE {
            list.InsertTail(cur);
          }
        }
        if list.first == Null {
          return true;
        }
        assert LinkedAt(list.next, list.prev, list.contents, 0);
        var e := list.first.elm;
        count := envs[e].pri;
        envs := envs[e := envs[e].(runs := envs[e].runs + 1)];
        EnvRun(e);
      } else {
        EnvRun(cur);
      }
      panic := false;
    }

    method RemoveCur()
      requires Valid() && CurRemovable() && cur != NONE
      modifies list
      ensures Valid() && list.contents == Without(old(list.contents), cur)
    {
      ghost var k: nat, j: nat;
      if cur in list.contents {
        k := list.InQueue(cur);
        j := k + 1;
        WithoutIsCut(list.contents, k);
      } else {
        k :| list.Between(cur, k, k);
        j := k;
        WithoutAbsent(list.contents, cur);
      }
      list.Remove(cur, k, j);
    }

    /** TAILQ_REMOVE of an element of the queue. */
    method RemoveQueued(e: nat)
      requires Valid() && e in list.contents
      modifies list
      ensures Valid() && list.contents == Without(old(list.contents), e)
      ensures exists k: nat :: list.Between(e, k, k)
    {
      ghost var k := list.InQueue(e);
      WithoutIsCut(list.contents, k);
      list.Remove(e, k, k + 1);
    }

    // ---- system calls, each as one kernel entry ----

    /** sys_yield: the caller goes to the tail and the next runs, another one unless the caller is alone. */
    method SysYield() returns (panic: bool)
      requires Valid() && Inv(View())
      modifies this, list
      ensures Valid() && !panic && OpStep(old(View()), Yield) == Next(View())
      ensures list.contents == old(list.contents)[1..] + [old(cur)] && cur == list.contents[0] && count == envs[cur].pri
      ensures cur == old(cur) <==> |old(list.contents)| == 1
      ensures envs == old(envs)[cur := old(envs)[cur].(runs := old(envs)[cur].runs + 2)]
    {
      ScheduleSays(View(), true);
      InQueue(View());
      panic := Schedule(true);
    }

    /** The timer interrupt: the same at the end of the last slice, and one slice less before. */
    method TimerInterrupt() returns (panic: bool)
      requires Valid() && Inv(View())
      modifies this, list
      ensures Valid() && !panic && OpStep(old(View()), Timer) == Next(View())
      ensures old(count) == 1 ==>
        && list.contents == old(list.contents)[1..] + [old(cur)] && cur == list.contents[0] && count == envs[cur].pri
        && envs == old(envs)[cur := old(envs)[cur].(runs := old(envs)[cur].runs + 2)]
      ensures old(count) != 1 ==>
        && list.contents == old(list.contents) && cur == old(cur) && count == old(count) - 1
        && envs == old(envs)[cur := old(envs)[cur].(runs := old(envs)[cur].runs + 1)]
    {
      ScheduleSays(View(), false);
      InQueue(View());
      panic := Schedule(false);
    }

    /**
      sys_ipc_recv past its address check: the caller blocks, out of the queue, and the next runs. `schedule` removes
      the caller a second time.
     */
    method SysIpcRecv() returns (panic: bool)
      requires Valid() && Inv(View())
      modifies this, list
      ensures Valid() && (panic <==> |old(list.contents)| == 1)
      ensures panic <==> OpStep(old(View()), Recv).Panic?
      ensures !panic ==> View() == OpStep(old(View()), Recv).s
      ensures !panic ==>
        && list.contents == old(list.contents)[1..] && cur == list.contents[0] && count == envs[cur].pri
        && |envs| == |old(envs)| && envs[old(cur)] == old(envs)[old(cur)].(recving := true, status := NOT_RUNNABLE)
    {
      RecvSays(View());
      InQueue(View());
      RestOfQueue(View());
      Block();
      hide Sched.Schedule, Blocked;
      panic := Schedule(true);
    }

    /** Its first three steps. */
    method Block()
      requires Valid() && Inv(View())
      modifies this, list
      ensures Valid() && View() == Blocked(old(View())) && CurRemovable()
    {
      hide Without;
      envs := envs[cur := envs[cur].(recving := true)];
      envs := envs[cur := envs[cur].(status := NOT_RUNNABLE)];
      assert list.contents[0] in list.contents;
      RemoveQueued(cur);
    }

    /**
      sys_ipc_try_send: a target that is not waiting is told apart from a bad address, and nothing changes then. A
      waiting one gets the message and runs again, also when the page is not mapped.
     */
    method SysIpcTrySend(to: nat, value: nat, src: Src, perm: bv12) returns (r: int)
      requires Valid() && Inv(View()) && to < |envs|
      modifies this, list
      ensures Valid() && OpStep(old(View()), Send(to, value, src, perm)) == Next(View())
      ensures r == SendResult(old(View()), to, src)
      ensures r == -E_IPC_NOT_RECV <==> src != Illegal && !old(envs)[to].recving
      ensures r == -E_INVAL <==> src == Illegal || (old(envs)[to].recving && src == Unmapped)
      ensures r == 0 <==> old(envs)[to].recving && (src == NoPage || src == Mapped)
      ensures cur == old(cur) && count == old(count)
      ensures src == Illegal || !old(envs)[to].recving ==> envs == old(envs) && list.contents == old(list.contents)
      ensures src != Illegal && old(envs)[to].recving ==>
        && list.contents == old(list.contents) + [to]
        && envs == old(envs)[to := old(envs)[to].(msg := Message(value, old(envs)[cur].id, PTE_V | perm),
                                                  recving := false, status := RUNNABLE)]
    {
      if src == Illegal {
        return -E_INVAL;
      }
      if !envs[to].recving {
        return -E_IPC_NOT_RECV;
      }
      assert envs[to].status == NOT_RUNNABLE && to !in list.contents;
      envs := envs[to := envs[to].(msg := Message(value, envs[cur].id, PTE_V | perm))];
      envs := envs[to := envs[to].(recving := false)];
      envs := envs[to := envs[to].(status := RUNNABLE)];
      list.InsertTail(to);
      r := if src == Unmapped then -E_INVAL else 0;
    }

    method SysSetEnvStatus(e: nat, status: Status) returns (r: int)
      requires Valid() && Inv(View()) && e < |envs| && Polite(View(), SetStatus(e, status))
      modifies this, list
      ensures Valid() && OpStep(old(View()), SetStatus(e, status)) == Next(View())
      ensures r == if status == FREE then -E_INVAL else 0
      ensures cur == old(cur) && count == old(count)
      ensures envs == if status == FREE then old(envs) else old(envs)[e := old(envs)[e].(status := status)]
      ensures e in list.contents <==> envs[e].status == RUNNABLE
      ensures list.contents == if status == FREE || status == old(envs)[e].status then old(list.contents)
                               else if status == RUNNABLE then old(list.contents) + [e]
                               else Without(old(list.contents), e)
    {
      if status != RUNNABLE && status != NOT_RUNNABLE {
        return -E_INVAL;
      }
      assert e in list.contents <==> envs[e].status == RUNNABLE;
      if envs[e].status == RUNNABLE && status == NOT_RUNNABLE {
        RemoveQueued(e);
      } else if envs[e].status == NOT_RUNNABLE && status == RUNNABLE {
        list.InsertTail(e);
      }
      envs := envs[e := envs[e].(status := status)];
      r := 0;
    }

    /** env_destroy of a runnable environment: env_free, then another one runs if it was the current one. */
    method EnvDestroy(e: nat) returns (panic: bool)
      requires Valid() && Inv(View()) && e < |envs| && Polite(View(), Destroy(e))
      modifies this, list
      ensures Valid()
      ensures panic <==> OpStep(old(View()), Destroy(e)).Panic?
      ensures !panic ==> View() == OpStep(old(View()), Destroy(e)).s
      ensures panic <==> e == old(cur) && |old(list.contents)| == 1
      ensures !panic ==> |envs| == |old(envs)| && envs[e] == old(envs)[e].(status := FREE) && e !in list.contents
      ensures e != old(cur) ==>
        && cur == old(cur) && count == old(count) && list.contents == Without(old(list.contents), e)
        && envs == old(envs)[e := old(envs)[e].(status := FREE)]
      ensures !panic && e == old(cur) ==>
        list.contents == old(list.contents)[1..] && cur == list.contents[0] && count == envs[cur].pri
    {
      assert e in list.contents;
      DestroySays(View(), e);
      RestOfQueue(View());
      envs := envs[e := envs[e].(status := FREE)];
      RemoveQueued(e);
      panic := false;
      if cur == e {
        cur := NONE;
        panic := Schedule(true);
      }
    }

    /** sys_exofork, once env_alloc has found a free environment: not runnable, with the caller's priority. */
    method SysExofork(child: nat, id: nat) returns (r: nat)
      requires Valid() && Inv(View()) && child < |envs| && Polite(View(), Exofork(child, id))
      modifies this
      ensures Valid() && OpStep(old(View()), Exofork(child, id)) == Next(View()) && r == id
      ensures list.contents == old(list.contents) && cur == old(cur) && count == old(count)
      ensures envs == old(envs)[child := old(envs)[child].(status := NOT_RUNNABLE, pri := old(envs)[cur].pri, id := id,
                                                           runs := 0)]
    {
      envs := envs[child := envs[child].(id := id, runs := 0)];
      envs := envs[child := envs[child].(status := NOT_RUNNABLE)];
      envs := envs[child := envs[child].(pri := envs[cur].pri)];
      r := id;
    }

    /** env_create, used while booting only: the new environment goes to the head of the queue. */
    method EnvCreate(e: nat, pri: nat, id: nat)
      requires Valid() && QueueOk(View()) && EnvsOk(View()) && e < |envs| && envs[e].status == FREE && pri >= 1
      modifies this, list
      ensures Valid() && QueueOk(View()) && EnvsOk(View())
      ensures list.contents == [e] + old(list.contents) && cur == old(cur) && count == old(count)
      ensures envs == old(envs)[e := old(envs)[e].(id := id, runs := 0, pri := pri, status := RUNNABLE)]
    {
      assert e !in list.contents;
      assert forall i :: 0 <= i < |list.contents| ==> list.contents[i] in list.contents;
      envs := envs[e := envs[e].(id := id, runs := 0, pri := pri, status := RUNNABLE)];
      list.InsertHead(e);
    }
  }
}
