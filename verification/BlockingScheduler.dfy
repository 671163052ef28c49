/** Group blocking as updates in place of the two job lists (src/sched.c), proved equal to
    the functions of module GroupBlocking. */
module BlockingScheduler {
  import opened Wrappers
  import opened CyclicTime
  import opened JobList
  import opened GroupBlocking
  import GroupBlockingSpec

  /** struct usfstl_sched_block_data. */
  datatype Saved = Saved(groups: set<nat>, job: Option<nat>)

  /** The part of the pending list before `i` has been visited. */
  ghost function Visited(v: State, i: nat): State
    requires i <= |v.parked|
  {
    Unpark(v.(parked := v.parked[..i]), v.parked[i..])
  }

  lemma VisitNext(v: State, i: nat)
    requires i < |v.parked|
    ensures var j := v.parked[i];
            Visited(v, i) ==
            if Eligible(v, j) then
              Visited(GroupBlocking.List(v.(parked := v.parked[..i] + v.parked[i + 1..]), j.(start := Later(j.start, v.now))), i)
            else Visited(v, i + 1)
  {
    var j, p := v.parked[i], v.parked;
    var rest := p[..i] + p[i + 1..];
    assert p[i..][1..] == p[i + 1..] && p[..i + 1] == p[..i] + [j];
    assert rest[..i] == p[..i] && rest[i..] == p[i + 1..];
  }

  class Scheduler {
    var now: Time
    var jobs: seq<Job>
    var parked: seq<Job>
    var blocked: set<nat>
    var allowed: Option<nat>
    var stamps: nat
    ghost var gone: set<nat>

    constructor ()
      ensures View() == State(0, [], [], {}, None, 0, {}) && Inv(View())
    {
      now, jobs, parked, blocked, allowed, stamps, gone := 0, [], [], {}, None, 0, {};
    }

    ghost function View(): State
      reads this
    {
      State(now, jobs, parked, blocked, allowed, stamps, gone)
    }

    method MayRun(j: Job) returns (yes: bool)
      ensures yes == Eligible(View(), j)
    {
      yes := allowed == Some(j.id) || j.group !in blocked;
    }

    method InsertJob(j: Job)
      modifies `jobs, `stamps
      ensures View() == GroupBlocking.List(old(View()), j)
    {
      var x := j.(stamp := stamps);
      var p := 0;
      while p < |jobs| && !Stops(jobs[p], x)
        invariant p <= |jobs| && forall i :: 0 <= i < p ==> !Stops(jobs[i], x)
      {
        p := p + 1;
      }
      PositionUnique(jobs, x, p);
      jobs := jobs[..p] + [x] + jobs[p..];
      stamps := stamps + 1;
    }

    method Add(j: Job)
      requires Ge(j.start, now) && !Scheduled(jobs + parked, j.id) && j.group < 32
      modifies `jobs, `parked, `stamps
      ensures View() == AddJob(old(View()), j)
      ensures if j.group !in blocked || allowed == Some(j.id) then
                parked == old(parked) && forall x :: x in jobs <==> x in old(jobs) || x == j.(stamp := old(stamps))
              else jobs == old(jobs) && parked == old(parked) + [j.(start := 0)]
    {
      GroupBlockingSpec.AddEffect(View(), j);
      var ok := MayRun(j);
      if ok {
        InsertJob(j);
      } else {
        parked := parked + [j.(start := 0)];
      }
    }

    method RemoveBlockedJobs()
      modifies `jobs, `parked
      ensures View() == RemoveBlocked(old(View()))
    {
      ghost var goal := RemoveBlocked(View());
      var i := 0;
      assert jobs[..0] == [] && jobs[0..] == jobs;
      while i < |jobs|
        invariant i <= |jobs| && goal == Park(View().(jobs := jobs[..i]), jobs[i..])
        decreases |jobs| - i
      {
        var j := jobs[i];
        assert jobs[i..][1..] == jobs[i + 1..] && jobs[..i + 1] == jobs[..i] + [j];
        var ok := MayRun(j);
        if ok {
          i := i + 1;
        } else {
          var rest := jobs[..i] + jobs[i + 1..];
          assert rest[..i] == jobs[..i] && rest[i..] == jobs[i + 1..];
          jobs, parked := rest, parked + [j];
        }
      }
      assert jobs[..i] == jobs;
    }

    method RestoreBlockedJobs()
      modifies `jobs, `parked, `stamps
      ensures View() == RestoreBlocked(old(View()))
    {
      ghost var goal := RestoreBlocked(View());
      var i := 0;
      assert parked[..0] == [] && parked[0..] == parked;
      while i < |parked|
        invariant i <= |parked| && goal == Visited(View(), i)
        decreases |parked| - i
      {
        var j := parked[i];
        VisitNext(View(), i);
        var ok := MayRun(j);
        if ok {
          parked := parked[..i] + parked[i + 1..];
          InsertJob(j.(start := Later(j.start, now)));
        } else {
          i := i + 1;
        }
      }
      assert parked[..i] == parked;
    }

    /** `group` is the group of `job`. */
    method BlockGroups(groups: set<nat>, job: Option<nat>, group: nat) returns (save: Saved)
      requires job.Some? ==> group in groups + blocked
      modifies `jobs, `parked, `blocked, `allowed
      ensures save == Saved(old(blocked), old(allowed)) && View() == Block(old(View()), groups, job)
    {
      save := Saved(blocked, allowed);
      blocked, allowed := blocked + groups, job;
      RemoveBlockedJobs();
    }

    method RestoreGroups(restore: Saved)
      modifies `jobs, `parked, `stamps, `blocked, `allowed
      ensures View() == Restore(old(View()), restore.groups, restore.job)
    {
      blocked, allowed := restore.groups, restore.job;
      RestoreBlockedJobs();
      RemoveBlockedJobs();
    }

    /** usfstl_sched_del_job: the job is on neither list any more, every other one is kept. */
    method Del(id: nat)
      requires Inv(View())
      modifies `jobs, `parked, `gone
      ensures Ok(View()) == old(Step(View(), GroupBlocking.Del(id))) && Good(old(View()), View())
      ensures !Scheduled(jobs + parked, id)
    {
      DelGood(View(), id);
      jobs, parked := Delete(jobs, id), Delete(parked, id);
      gone := gone + {id};
    }
  }
}
