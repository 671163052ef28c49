/** The semaphore operations of src/task.c as updates in place, proved equal to the steps of
    module Semaphore. */
module SemaphoreTasks {
  import opened Wrappers
  import opened CyclicTime
  import opened Semaphore
  import opened SemaphoreHistory

  lemma FirstActiveIs(tasks: map<nat, Task>, w: seq<nat>, i: nat)
    requires (forall t :: t in w ==> t in tasks) && i <= |w|
    requires (forall k :: 0 <= k < i ==> tasks[w[k]].blocked) && (i < |w| ==> !tasks[w[i]].blocked)
    ensures FirstActive(tasks, w) == i
  {
    var j := FirstActive(tasks, w);
    assert j < |w| ==> !tasks[w[j]].blocked;
  }

  lemma PlaceIs(tasks: map<nat, Task>, w: seq<nat>, p: nat, i: nat)
    requires (forall t :: t in w ==> t in tasks) && i <= |w|
    requires (forall k :: 0 <= k < i ==> tasks[w[k]].priority >= p) && (i < |w| ==> tasks[w[i]].priority < p)
    ensures Place(tasks, w, p) == i
  {
    var j := Place(tasks, w, p);
    assert j < |w| ==> tasks[w[j]].priority < p;
  }

  lemma MarkOneMore(tasks: map<nat, Task>, w: seq<nat>, i: nat, s: nat)
    requires i < |w| && w[i] in tasks
    ensures var m := Mark(tasks, w[..i], s);
            w[i] in m && m[w[i] := m[w[i]].(check := Some(s))] == Mark(tasks, w[..i + 1], s)
  {
    assert w[..i + 1] == w[..i] + [w[i]];
  }

  class Tasks {
    var tasks: map<nat, Task>
    var sems: map<nat, Sem>
    var now: Time
    var current: Option<nat>
    var stamps: nat

    constructor (sems: map<nat, nat>, main: nat, priority: nat)
      ensures Initial(View()) && current == Some(main)
      ensures this.sems.Keys == sems.Keys && forall s :: s in sems ==> this.sems[s].ctr == sems[s]
    {
      this.tasks := map[main := Task(priority, false, 0, false, false, None, None, false, false, 0)];
      this.sems := map s | s in sems :: Sem(sems[s], []);
      this.now, this.current, this.stamps := 0, Some(main), 0;
    }

    ghost function View(): State
      reads this
    {
      State(tasks, sems, now, current, stamps)
    }

    /** The scan of usfstl_process_sem_wakeup up to the first waiter that is not blocked. */
    method MarkBlocked(w: seq<nat>, s: nat) returns (i: nat)
      requires forall t :: t in w ==> t in tasks
      modifies `tasks
      ensures i == FirstActive(old(tasks), w) && tasks == Mark(old(tasks), w[..i], s)
    {
      ghost var was := tasks;
      i := 0;
      while i < |w|
        invariant i <= |w| && tasks == Mark(was, w[..i], s)
        invariant forall k :: 0 <= k < i ==> was[w[k]].blocked
      {
        var t := w[i];
        assert t in w;
        MarkOnly(was, w[..i], s, t);
        if !tasks[t].blocked {
          break;
        }
        MarkOneMore(was, w, i, s);
        tasks := tasks[t := tasks[t].(check := Some(s))];
        i := i + 1;
      }
      FirstActiveIs(was, w, i);
    }

    method ProcessWakeup(s: nat) returns (woke: bool)
      requires Known(View()) && s in sems
      modifies `tasks, `sems
      ensures View() == old(Wakeup(View(), s)) && woke == old(CanWake(View(), s))
    {
      var w := sems[s].waiters;
      var i := MarkBlocked(w, s);
      woke := i < |w|;
      if woke {
        var t := w[i];
        tasks := tasks[t := AddJob(tasks[t].(listed := false), now).(woken := true, waiting := None)];
        sems := sems[s := sems[s].(waiters := w[..i] + w[i + 1..])];
      }
    }

    method SemPost(s: nat)
      requires Known(View()) && s in sems
      modifies `tasks, `sems
      ensures View() == old(Post(View(), s)) && (old(Inv(View())) ==> Does(old(View()), Posts(s), View()))
    {
      if Inv(View()) {
        PostDoes(View(), s);
      }
      var woke := ProcessWakeup(s);
      sems := sems[s := sems[s].(ctr := if woke then sems[s].ctr else sems[s].ctr + 1)];
    }

    method SemTryWait(s: nat) returns (got: bool)
      requires Known(View()) && s in sems
      modifies `sems
      ensures View() == old(TryWait(View(), s)) && got == old(sems[s].ctr > 0)
      ensures if got then Takes(old(View()), View(), s) else View() == old(View())
    {
      got := sems[s].ctr > 0;
      if got {
        sems := sems[s := sems[s].(ctr := sems[s].ctr - 1)];
      }
    }

    method FindPlace(w: seq<nat>, p: nat) returns (i: nat)
      requires forall t :: t in w ==> t in tasks
      ensures i == Place(tasks, w, p)
    {
      i := 0;
      while i < |w| && tasks[w[i]].priority >= p
        invariant i <= |w| && forall k :: 0 <= k < i ==> tasks[w[k]].priority >= p
      {
        i := i + 1;
      }
      PlaceIs(tasks, w, p, i);
    }

    /** usfstl_sem_timedwait up to its return or suspension. */
    method SemTimedWait(s: nat, timeout: Option<Time>) returns (got: bool)
      requires Known(View()) && s in sems && current.Some?
      modifies `tasks, `sems, `current, `stamps
      ensures View() == old(TimedWait(View(), current.value, s, timeout)) && got == old(sems[s].ctr > 0)
      ensures got ==> Takes(old(View()), View(), s)
      ensures !got && old(Inv(View())) ==> Suspended(old(View()), View(), old(current.value), s, timeout)
    {
      if sems[s].ctr > 0 {
        sems := sems[s := sems[s].(ctr := sems[s].ctr - 1)];
        return true;
      }
      if Inv(View()) {
        WaitDoes(View(), s, timeout);
      }
      SuspendIn(s, timeout);
      return false;
    }

    /** The task joins the waiters and suspends. */
    method SuspendIn(s: nat, timeout: Option<Time>)
      requires Known(View()) && s in sems && current.Some? && sems[s].ctr == 0
      modifies `tasks, `sems, `current, `stamps
      ensures View() == old(TimedWait(View(), current.value, s, timeout))
    {
      var c := current.value;
      var t := tasks[c];
      if timeout.Some? {
        t := AddJob(t, Wrap(now + timeout.value));
      }
      var w := sems[s].waiters;
      var i := FindPlace(w, t.priority);
      tasks := tasks[c := t.(waiting := Some(s), forever := timeout.None?, since := stamps)];
      sems := sems[s := sems[s].(waiters := w[..i] + [c] + w[i..])];
      current, stamps := None, stamps + 1;
    }

    method TaskBlock(t: nat)
      requires t in tasks && !tasks[t].blocked
      modifies `tasks
      ensures tasks == old(tasks[t := Block(tasks[t])])
    {
      var k := tasks[t].(blocked := true);
      if k.listed {
        k := k.(pending := true, listed := false);
      }
      tasks := tasks[t := k];
    }

    /** usfstl_task_unblock; `fine` is the assertion that some task is woken. */
    method TaskUnblock(t: nat) returns (fine: bool)
      requires Known(View()) && t in tasks && tasks[t].blocked
      requires tasks[t].check.Some? ==> tasks[t].check.value in sems
      modifies `tasks, `sems
      ensures (if fine then Ok(View()) else Aborted) == old(Unblock(View(), t))
      ensures old(Inv(View())) ==> fine && Does(old(View()), Unblocks(t), View())
    {
      if Inv(View()) {
        UnblockDoes(View(), t);
      }
      fine := UnblockAndCheck(t);
    }

    method UnblockAndCheck(t: nat) returns (fine: bool)
      requires Known(View()) && t in tasks && tasks[t].blocked
      requires tasks[t].check.Some? ==> tasks[t].check.value in sems
      modifies `tasks, `sems
      ensures (if fine then Ok(View()) else Aborted) == old(Unblock(View(), t))
    {
      var check := tasks[t].check;
      UnblockOne(t);
      fine := true;
      if check.None? {
        assert tasks[t].(check := None) == tasks[t] && tasks[t := tasks[t]] == tasks;
        return;
      }
      var s := check.value;
      if sems[s].ctr > 0 {
        sems := sems[s := sems[s].(ctr := sems[s].ctr - 1)];
        fine := ProcessWakeup(s);
      }
      tasks := tasks[t := tasks[t].(check := None)];
    }

    /** usfstl_sched_unblock_job. */
    method UnblockOne(t: nat)
      requires t in tasks && tasks[t].blocked
      modifies `tasks
      ensures tasks == old(tasks[t := UnblockJob(tasks[t], now)])
    {
      var k := tasks[t].(blocked := false);
      if k.pending {
        k := AddJob(k.(pending := false), Later(k.start, now));
      }
      tasks := tasks[t := k];
    }
  }
}
