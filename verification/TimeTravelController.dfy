/** The controller and its shared memory as the object the code updates in place
    (control/main.c, src/schedctrl.c). Every method performs one step of the protocol. */
module TimeTravelController {
  import opened Wrappers
  import opened CyclicTime
  import opened JobList
  import opened TimeTravel
  import opened TimeTravelSafety

  lemma TransferNext(s: State, ids: seq<nat>, i: nat)
    requires i < |ids| && forall id :: id in ids ==> id in s.clients
    ensures TimeTravel.Transfer(s, ids[i..]) == TimeTravel.Transfer(TimeTravel.TransferOne(s, ids[i]), ids[i + 1..])
  {
    assert ids[i..][1..] == ids[i + 1..];
  }

  class Controller {
    // struct um_timetravel_schedshm
    var currentTime: Time
    var freeUntil: Time
    var runningId: nat
    var clients: map<nat, Client>
    // the controller's own state
    const order: seq<nat>
    var jobs: seq<Job>
    var stamps: nat
    // history, only read by specifications
    ghost var phase: Phase
    ghost var seen: Time
    ghost var elapsed: int
    ghost var log: seq<Entry>

    ghost function View(): State
      reads this
    {
      State(currentTime, freeUntil, runningId, clients, order, jobs, stamps, phase, seen, elapsed, log)
    }

    /** All clients have started, and only those that made a request are flagged. */
    constructor (now: Time, clients: map<nat, Client>, order: seq<nat>)
      requires 0 !in clients && forall id :: id in clients <==> id in order
      requires forall id :: id in clients && clients[id].flagged ==> Le(now, clients[id].req)
      ensures Initial(View()) && currentTime == now && this.clients == clients
    {
      currentTime, freeUntil, runningId, this.clients, this.order := now, now, 0, clients, order;
      jobs, stamps := [], 0;
      phase, seen, elapsed, log := Transferring, now, now, StartLog(clients, order);
    }

    /** update_sync(NULL). */
    method UpdateSync()
      modifies this
      ensures View() == TimeTravel.UpdateSync(old(View()))
    {
      var sync := Wrap(currentTime + TWO62);
      if jobs != [] && Lt(jobs[0].start, sync) {
        sync := jobs[0].start;
      }
      freeUntil := sync;
      if runningId !in clients {
        return;
      }
      var client := clients[runningId];
      if client.shm {
        return;
      }
      // already told to run until exactly this time
      if client.sync == Some(sync) {
        assert clients == clients[runningId := client.(sync := Some(sync))];
        return;
      }
      clients := clients[runningId := client.(sync := Some(sync))];
    }

    /** usfstl_sched_del_job and usfstl_sched_add_job for a client's job. */
    method Reschedule(id: nat, t: Time)
      modifies this
      ensures View() == TimeTravel.Reschedule(old(View()), id, t)
    {
      jobs := Insert(Delete(jobs, id), Job(id, t, 0, 1, stamps));
      stamps := stamps + 1;
      UpdateSync();
    }

    method Store(id: nat, t: Time)
      requires id in clients
      modifies this
      ensures View() == TimeTravel.Store(old(View()), id, t)
    {
      clients := clients[id := clients[id].(flagged := true, req := t)];
      log := log + [Requested(id, t)];
    }

    /** _handle_message, UM_TIMETRAVEL_REQUEST. */
    method HandleRequest(id: nat, t: Time)
      requires Inv(View()) && Allowed(View(), Message(id, t))
      modifies this
      ensures Ok(View()) == Step(old(View()), Message(id, t)) && Good(old(View()), Ok(View()))
    {
      StepGood(View(), Message(id, t));
      Store(id, t);
      if runningId in clients && clients[runningId].shm {
        if Lt(t, freeUntil) {
          freeUntil := t;
        }
      } else {
        Reschedule(id, t);
      }
    }

    /** _schedctrl_request_shm; a client that is told it can run stores nothing. */
    method RequestShm(id: nat, t: Time) returns (canRun: bool)
      requires Inv(View()) && Allowed(View(), Request(id, t))
      modifies this
      ensures Ok(View()) == Step(old(View()), Request(id, t)) && Good(old(View()), Ok(View()))
      ensures canRun == CanRun(old(View()), id, t)
      ensures canRun ==> View() == old(View()) && Le(t, freeUntil) && Ge(t, currentTime)
    {
      StepGood(View(), Request(id, t));
      AheadIsGe(currentTime, t);
      if !(runningId in clients && clients[runningId].shm) {
        HandleRequest(id, t);
        return false;
      }
      // a client waits unless it is the running one
      if Lt(t, freeUntil) {
        if id == runningId {
          canRun := true;
          return;
        }
        freeUntil := t;
      }
      Store(id, t);
      canRun := false;
    }

    /** _schedctrl_set_time after a request that was answered "can run". */
    method SetTime(t: Time)
      requires Inv(View()) && Allowed(View(), Forward(t)) && CanRun(View(), runningId, t)
      modifies this
      ensures Ok(View()) == Step(old(View()), Forward(t)) && Good(old(View()), Ok(View()))
      ensures currentTime == t
    {
      StepGood(View(), Forward(t));
      elapsed := elapsed + Signed(t - currentTime);
      seen := t;
      currentTime := t;
    }

    /** The end of usfstl_sched_ctrl_wait: the client clears its past request. */
    method ClientWakes()
      requires Inv(View()) && Allowed(View(), Wake)
      modifies this
      ensures Ok(View()) == Step(old(View()), Wake) && Good(old(View()), Ok(View()))
    {
      StepGood(View(), Wake);
      clients := clients[runningId := clients[runningId].(flagged := false)];
      phase := Turn;
    }

    /** _handle_message, UM_TIMETRAVEL_UPDATE. */
    method HandleUpdate(t: Time)
      requires Inv(View()) && Allowed(View(), SendUpdate) && t == seen
      modifies this
      ensures Ok(View()) == Step(old(View()), SendUpdate) && Good(old(View()), Ok(View()))
      ensures currentTime == t
    {
      StepGood(View(), SendUpdate);
      elapsed := elapsed + Signed(t - currentTime);
      currentTime := t;
    }

    /** _handle_message, UM_TIMETRAVEL_WAIT: the controller takes the run token. */
    method HandleWait()
      requires Inv(View()) && Allowed(View(), Wait)
      modifies this
      ensures Ok(View()) == Step(old(View()), Wait) && Good(old(View()), Ok(View()))
      ensures clients == old(clients) && jobs == old(jobs) && runningId == 0 == Holder(log)
    {
      StepGood(View(), Wait);
      log := log + [Waited(runningId)];
      runningId := 0;
      phase := Transferring;
    }

    /** run_client, without the messages: the client then holds the run token and a bound that
        no queued job lies before; a message client has been told the bound. */
    method RunClient(job: Job)
      requires job.id in clients && Sorted(currentTime, jobs) && JobList.Ahead(currentTime, jobs)
      modifies this
      ensures runningId == job.id == Holder(log) && jobs == old(jobs) && currentTime == old(currentTime)
      ensures Le(currentTime, freeUntil) && AllNotBefore(currentTime, freeUntil, jobs)
      ensures job.id in clients && (!clients[job.id].shm ==> clients[job.id].sync == Some(freeUntil) && !clients[job.id].flagged)
      ensures View() ==
                var t := old(View());
                var u := TimeTravel.UpdateSync(t.(running := job.id, log := t.log + [Ran(job.id, t.now, t.elapsed)]));
                if t.clients[job.id].shm then u.(phase := Granted)
                else u.(phase := Turn, clients := u.clients[job.id := u.clients[job.id].(flagged := false)])
    {
      SyncBetween(currentTime, jobs);
      runningId := job.id;
      log := log + [Ran(job.id, currentTime, elapsed)];
      UpdateSync();
      if clients[job.id].shm {
        phase := Granted;
      } else {
        // message clients cannot clear the flag themselves
        clients := clients[job.id := clients[job.id].(flagged := false)];
        phase := Turn;
      }
    }

    method TakeFirst() returns (job: Job)
      requires Inv(View()) && phase == Ready && jobs != []
      modifies this
      ensures job == old(jobs[0]) && Sorted(currentTime, jobs) && JobList.Ahead(currentTime, jobs)
      ensures View() == var s := old(View());
                        MoveClock(s, if Gt(job.start, s.now) then job.start else s.now).(jobs := s.jobs[1..])
    {
      job := jobs[0];
      TakeHead(View());
      NextTime(View());
      var t := if Gt(job.start, currentTime) then job.start else currentTime;
      elapsed := elapsed + Signed(t - currentTime);
      seen := t;
      currentTime := t;
      jobs := jobs[1..];
    }

    /** usfstl_sched_next: take the first job, move to its start and call it. */
    method CallNext() returns (job: Job)
      requires Inv(View()) && phase == Ready && jobs != []
      modifies this
      ensures View() == Next(old(View())) && job == old(jobs[0])
    {
      job := TakeFirst();
      if job.id in clients {
        RunClient(job);
      } else {
        phase := Callback;
      }
    }

    method RunNext() returns (job: Job)
      requires Inv(View()) && Allowed(View(), TimeTravel.RunNext)
      modifies this
      ensures Ok(View()) == Step(old(View()), TimeTravel.RunNext) && Good(old(View()), Ok(View()))
      ensures job == old(jobs[0]) && currentTime == job.start
    {
      ghost var s := View();
      NextTime(s);
      job := CallNext();
      StepGood(s, TimeTravel.RunNext);
    }

    /** _schedshm_client_req_time. */
    method TransferOne(id: nat)
      requires id in clients
      modifies this
      ensures View() == TimeTravel.TransferOne(old(View()), id)
    {
      var client := clients[id];
      if !client.flagged {
        return;
      }
      if exists j :: j in jobs && j.id == id && j.start == client.req {
        return;
      }
      Reschedule(id, client.req);
    }

    /** The loop over all clients at the end of each round of the main loop. */
    method TransferLoop()
      requires forall id :: id in order ==> id in clients
      modifies this
      ensures View() == TimeTravel.Transfer(old(View()), order)
    {
      for i := 0 to |order|
        invariant clients.Keys == old(clients.Keys)
        invariant TimeTravel.Transfer(View(), order[i..]) == old(TimeTravel.Transfer(View(), order))
      {
        TransferNext(View(), order, i);
        TransferOne(order[i]);
      }
      assert order[|order|..] == [];
    }

    method TransferRequests()
      requires Inv(View()) && Allowed(View(), TransferAll)
      modifies this
      ensures Ok(View()) == Step(old(View()), TransferAll) && Good(old(View()), Ok(View()))
    {
      ghost var s := View();
      TransferLoop();
      phase := Ready;
      StepGood(s, TransferAll);
    }
  }
}
