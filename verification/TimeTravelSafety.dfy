/** Conservative-simulation safety of the time-travel protocol over whole runs. */
module TimeTravelSafety {
  import opened Wrappers
  import opened CyclicTime
  import opened JobList
  import opened TimeTravel

  // ------------------------------------------------------------ the queue

  lemma InsertQueue(now: Time, jobs: seq<Job>, j: Job)
    requires Sorted(now, jobs) && Ahead(now, jobs) && Unique(jobs)
    requires (forall x :: x in jobs ==> x.stamp < j.stamp && x.id != j.id) && Le(now, j.start)
    ensures var r := Insert(jobs, j); Sorted(now, r) && Ahead(now, r) && Unique(r)
  {
    InsertSorted(now, jobs, j);
  }

  lemma DeleteQueue(s: State, id: nat)
    requires Queue(s)
    ensures Queue(s.(jobs := Delete(s.jobs, id)))
  {
    DeleteSorted(s.now, s.jobs, id);
  }

  /** The sync time is between now and the first job. */
  lemma SyncBetween(now: Time, jobs: seq<Job>)
    requires Sorted(now, jobs) && Ahead(now, jobs)
    ensures Le(now, SyncTime(now, jobs)) && AllNotBefore(now, SyncTime(now, jobs), jobs)
    ensures Dist(now, SyncTime(now, jobs)) <= TWO62
    ensures forall t :: Le(now, t) && Dist(now, t) <= TWO62 && AllNotBefore(now, t, jobs) ==>
              NotBefore(now, t, SyncTime(now, jobs))
  {
    FarAhead(now);
    if jobs != [] {
      HeadIsFirst(now, jobs);
      WindowOrder(now, jobs[0].start, Wrap(now + TWO62));
    }
  }

  lemma FarAhead(now: Time)
    ensures Dist(now, Wrap(now + TWO62)) == TWO62 && Le(now, Wrap(now + TWO62))
  {
  }

  /** Adding a job: the new bound is still at or before every job. */
  lemma AddJobEffect(s: State, id: nat, t: Time, priority: nat)
    requires Queue(s) && !Scheduled(s.jobs, id) && Le(s.now, t)
    ensures var u := AddJob(s, id, t, priority);
            && Queue(u)
            && Le(s.now, u.free) && Dist(s.now, u.free) <= TWO62 && AllNotBefore(s.now, u.free, u.jobs)
            && (t == s.now ==> u.free == s.now)
            && (forall b :: Le(s.now, b) && Dist(s.now, b) <= TWO62 && AllNotBefore(s.now, b, u.jobs) ==>
                  NotBefore(s.now, b, u.free))
            && forall j :: j in u.jobs <==> j in s.jobs || j == Job(id, t, priority, 1, s.stamps)
  {
    var j := Job(id, t, priority, 1, s.stamps);
    var r := Insert(s.jobs, j);
    InsertQueue(s.now, s.jobs, j);
    SyncBetween(s.now, r);
    SyncAtOnce(s.now, r, j);
  }

  lemma SyncAtOnce(now: Time, jobs: seq<Job>, j: Job)
    requires AllNotBefore(now, SyncTime(now, jobs), jobs) && Le(now, SyncTime(now, jobs)) && j in jobs
    ensures j.start == now ==> SyncTime(now, jobs) == now
  {
    if j.start == now {
      assert NotBefore(now, SyncTime(now, jobs), j.start);
      WindowOrder(now, SyncTime(now, jobs), now);
    }
  }

  lemma RescheduleEffect(s: State, id: nat, t: Time)
    requires Queue(s) && Le(s.now, t)
    ensures var u := Reschedule(s, id, t);
            && Queue(u)
            && Le(s.now, u.free) && Dist(s.now, u.free) <= TWO62 && AllNotBefore(s.now, u.free, u.jobs)
            && (forall b :: Le(s.now, b) && Dist(s.now, b) <= TWO62 && AllNotBefore(s.now, b, u.jobs) ==>
                  NotBefore(s.now, b, u.free))
            && forall j :: j in u.jobs <==> (j in s.jobs && j.id != id) || j == Job(id, t, 0, 1, s.stamps)
  {
    DeleteQueue(s, id);
    AddJobEffect(s.(jobs := Delete(s.jobs, id)), id, t, 0);
  }

  lemma LastRequestAppend(log: seq<Entry>, e: Entry, id: nat)
    ensures LastRequest(log + [e], id) ==
              if e.Requested? && e.id == id then Some(e.time) else LastRequest(log, id)
  {
    Appended(log, e);
  }

  /** What a step may do to clock and history; no pending request is overrun. */
  ghost predicate Progress(s: State, t: State) {
    && Le(s.now, t.now) && Le(s.seen, t.seen) && s.elapsed <= t.elapsed
    && s.log <= t.log && s.order == t.order && s.clients.Keys == t.clients.Keys
    && (forall j :: j in s.jobs ==> Le(t.now, j.start))
    && (forall id :: id in s.clients && s.clients[id].flagged && !(s.phase == Granted && id == s.running) ==>
          Le(t.now, s.clients[id].req))
  }

  ghost predicate Good(s: State, r: Outcome<State>) { r.Ok? && Inv(r.s) && Progress(s, r.s) }

  /** Every flagged request of a client that is not just being woken is still ahead. */
  lemma RequestsAhead(s: State)
    requires Inv(s)
    ensures forall id :: id in s.clients && s.clients[id].flagged && !(s.phase == Granted && id == s.running) ==>
              NotBefore(s.now, s.seen, s.clients[id].req)
  {
  }

  lemma StillProgress(s: State, t: State)
    requires Inv(s) && t.now == s.now && t.seen == s.seen && t.elapsed == s.elapsed
    requires s.log <= t.log && s.order == t.order && s.clients.Keys == t.clients.Keys
    ensures Progress(s, t)
  {
    RequestsAhead(s);
  }

  lemma Appended(log: seq<Entry>, e: Entry)
    ensures (log + [e])[..|log|] == log
    ensures forall i :: 0 <= i < |log| ==> (log + [e])[i] == log[i] && (log + [e])[..i] == log[..i]
  {
    forall i | 0 <= i < |log| ensures (log + [e])[..i] == log[..i] {
    }
  }

  lemma StoreGrants(s: State, id: nat, t: Time)
    requires Grants(s) && Token(s) && id in s.clients
    ensures Grants(Store(s, id, t)) && Token(Store(s, id, t))
  {
    Appended(s.log, Requested(id, t));
  }

  // ------------------------------------------------------------ requests

  lemma RequestUnderShm(s: State, id: nat, t: Time)
    requires Inv(s) && ShmTurn(s) && id in s.clients && MayAsk(s, id, t)
    ensures Good(s, Ok(LowerFree(Store(s, id, t), t)))
  {
    var u := LowerFree(Store(s, id, t), t);
    WindowOrder(s.now, t, s.free);
    StoreGrants(s, id, t);
    assert Bound(u);
    forall c | c in u.clients && u.clients[c].flagged ensures RequestKept(u, c, u.clients[c].req) {
      LastRequestAppend(s.log, Requested(id, t), c);
    }
    StillProgress(s, u);
  }

  /** The requests of two states differ at most in that of client `id`, which is now `t`. */
  ghost predicate SameRequestsBut(s: State, u: State, id: nat, t: Time) {
    && u.clients.Keys == s.clients.Keys && id in u.clients
    && u.clients[id].flagged && u.clients[id].req == t
    && forall c :: c in s.clients && c != id ==>
         u.clients[c].flagged == s.clients[c].flagged && u.clients[c].req == s.clients[c].req
  }

  lemma MessageKeepsRequests(s: State, u: State, id: nat, t: Time, n: Job)
    requires Requests(s) && !ShmTurn(s) && !ShmTurn(u) && s.phase in {Callback, Turn} && u.phase == s.phase
    requires SameRequestsBut(s, u, id, t) && u.log == s.log + [Requested(id, t)]
    requires n.id == id && n.start == t
    requires forall j :: j in u.jobs <==> (j in s.jobs && j.id != id) || j == n
    ensures Requests(u)
  {
    forall c | c in u.clients && u.clients[c].flagged ensures RequestKept(u, c, u.clients[c].req) {
      LastRequestAppend(s.log, Requested(id, t), c);
      if c == id {
        assert n in u.jobs;
      } else {
        assert RequestKept(s, c, s.clients[c].req);
        var j :| j in s.jobs && j.id == c && j.start == s.clients[c].req;
        assert j in u.jobs;
      }
    }
  }

  /** Clients differ at most in the last bound they were told. */
  ghost predicate SameClients(s: State, u: State) {
    && u.clients.Keys == s.clients.Keys
    && forall c :: c in s.clients ==> u.clients[c] == s.clients[c].(sync := u.clients[c].sync)
  }

  ghost predicate SameClock(s: State, u: State) {
    && u.now == s.now && u.seen == s.seen && u.elapsed == s.elapsed && u.order == s.order
    && u.phase == s.phase && u.running == s.running
  }

  /** Queueing a job changes the queue, its stamps and the published bound. */
  lemma AddJobKeeps(s: State, id: nat, t: Time, priority: nat)
    ensures var u := AddJob(s, id, t, priority);
            && SameClock(s, u) && SameClients(s, u) && u.log == s.log
            && (s.running in s.clients && !s.clients[s.running].shm ==> u.clients[s.running].sync == Some(u.free))
  {
  }

  lemma SameHistory(s: State, u: State)
    requires Grants(s) && Token(s) && SameClock(s, u) && u.log == s.log
    ensures Grants(u) && Token(u)
  {
  }

  lemma MessageKeepsHistory(s: State, id: nat, t: Time)
    requires Grants(s) && Token(s) && id in s.clients && s.phase != Granted
    ensures var u := Reschedule(Store(s, id, t), id, t);
            && Grants(u) && Token(u) && SameRequestsBut(s, u, id, t) && u.log == s.log + [Requested(id, t)]
            && SameClock(s, u)
            && forall c :: c in s.clients ==> u.clients[c].shm == s.clients[c].shm
  {
    var v := Store(s, id, t);
    StoreGrants(s, id, t);
    var w := v.(jobs := Delete(v.jobs, id));
    AddJobKeeps(w, id, t, 0);
    SameHistory(v, AddJob(w, id, t, 0));
    assert forall c :: c in s.clients && c != id ==> v.clients[c] == s.clients[c];
  }

  /** The request of client `id` for time `t` is queued, and the bound published. */
  ghost predicate Requeued(s: State, u: State, id: nat, t: Time) {
    && Queue(u) && SameClock(s, u) && u.clients.Keys == s.clients.Keys
    && (forall c :: c in s.clients ==> u.clients[c].shm == s.clients[c].shm)
    && (s.running in s.clients && !s.clients[s.running].shm ==> u.clients[s.running].sync == Some(u.free))
    && Le(s.now, u.free) && Dist(s.now, u.free) <= TWO62 && AllNotBefore(s.now, u.free, u.jobs)
    && (forall b :: Le(s.now, b) && Dist(s.now, b) <= TWO62 && AllNotBefore(s.now, b, u.jobs) ==> NotBefore(s.now, b, u.free))
    && forall j :: j in u.jobs <==> (j in s.jobs && j.id != id) || j == Job(id, t, 0, 1, s.stamps)
  }

  lemma MessageQueue(s: State, id: nat, t: Time)
    requires Queue(s) && id in s.clients && Le(s.now, t)
    ensures Requeued(s, Reschedule(Store(s, id, t), id, t), id, t)
  {
    var v := Store(s, id, t);
    RescheduleEffect(v, id, t);
    AddJobKeeps(v.(jobs := Delete(v.jobs, id)), id, t, 0);
  }

  lemma MessageKeepsBound(s: State, u: State, id: nat, t: Time)
    requires Inv(s) && !HasShm(s, s.running) && id in s.clients && MayAsk(s, id, t) && Requeued(s, u, id, t)
    ensures Roles(u) && Horizon(u) && Bound(u)
  {
    assert Roles(u);
    MessageBound(s, u, Job(id, t, 0, 1, s.stamps));
  }

  lemma MessageBound(s: State, u: State, n: Job)
    requires Horizon(s) && Bound(s) && !ShmTurn(s) && NotBefore(s.now, s.seen, n.start) && SameClock(s, u)
    requires s.phase == Callback ==> s.seen == s.now
    requires (ShmTurn(u) <==> ShmTurn(s)) && (MessageTurn(u) ==> MessageTurn(s) && u.clients[s.running].sync == Some(u.free))
    requires Le(s.now, u.free) && Dist(s.now, u.free) <= TWO62 && AllNotBefore(s.now, u.free, u.jobs)
    requires forall b :: Le(s.now, b) && Dist(s.now, b) <= TWO62 && AllNotBefore(s.now, b, u.jobs) ==> NotBefore(s.now, b, u.free)
    requires forall j :: j in u.jobs ==> j in s.jobs || j == n
    ensures Horizon(u) && Bound(u)
  {
    if MessageTurn(u) {
      assert NotBefore(s.now, u.seen, u.free);
    }
  }

  lemma RequestByMessage(s: State, id: nat, t: Time)
    requires Inv(s) && !HasShm(s, s.running) && id in s.clients && MayAsk(s, id, t)
    ensures Good(s, HandleRequest(s, id, t))
  {
    AheadIsGe(s.now, t);
    MessageKeepsHistory(s, id, t);
    var u := Reschedule(Store(s, id, t), id, t);
    MessageQueue(s, id, t);
    MessageKeepsBound(s, u, id, t);
    MessageKeepsRequests(s, u, id, t, Job(id, t, 0, 1, s.stamps));
    StillProgress(s, u);
  }

  lemma AheadIsGe(now: Time, t: Time)
    requires Le(now, t)
    ensures Ge(t, now)
  {
  }

  // ------------------------------------------------------------ moving the clock

  lemma NotBeforeAdvances(now: Time, next: Time, b: Time, t: Time)
    requires Le(now, next) && NotBefore(now, next, b) && NotBefore(now, b, t)
    ensures NotBefore(next, b, t)
    ensures Dist(next, b) == Dist(now, b) - Dist(now, next)
  {
    WindowOrder(now, next, b);
    WindowOrder(now, next, t);
    Advance(now, next, b);
    Advance(now, next, t);
  }

  lemma ElapsedFollows(elapsed: int, now: Time, t: Time)
    requires Wrap(elapsed) == now
    ensures Wrap(elapsed + Signed(t - now)) == t
  {
  }

  lemma MoveQueue(s: State, t: Time)
    requires Queue(s) && Le(s.now, t) && AllNotBefore(s.now, t, s.jobs)
    ensures Queue(MoveClock(s, t)) && AllNotBefore(t, t, s.jobs)
  {
    forall j | j in s.jobs ensures NotBefore(t, t, j.start) {
      WindowOrder(s.now, t, j.start);
      Advance(s.now, t, j.start);
    }
    SortedAdvances(s.now, t, s.jobs);
  }

  lemma MoveGrants(s: State, t: Time)
    requires Grants(s) && Le(s.now, t)
    ensures Grants(MoveClock(s, t)) && s.elapsed <= MoveClock(s, t).elapsed
  {
    ElapsedFollows(s.elapsed, s.now, t);
  }

  lemma MoveBound(s: State, t: Time)
    requires Le(s.now, t) && NotBefore(s.now, t, s.free) && Dist(s.now, s.free) <= TWO62
    requires AllNotBefore(s.now, s.free, s.jobs)
    ensures NotBefore(t, t, s.free) && Dist(t, s.free) <= TWO62 && AllNotBefore(t, s.free, s.jobs)
  {
    NotBeforeAdvances(s.now, t, s.free, s.free);
    forall j | j in s.jobs ensures NotBefore(t, s.free, j.start) {
      NotBeforeAdvances(s.now, t, s.free, j.start);
    }
  }

  lemma MoveRequests(s: State, t: Time)
    requires Inv(s) && s.phase == Turn && Le(s.now, t) && NotBefore(s.now, t, s.free)
    ensures Requests(MoveClock(s, t))
    ensures forall id :: id in s.clients && s.clients[id].flagged ==> Le(t, s.clients[id].req)
    ensures forall j :: j in s.jobs ==> Le(t, j.start)
  {
    var u := MoveClock(s, t);
    forall j | j in s.jobs ensures Le(t, j.start) {
      NotBeforeAdvances(s.now, t, s.free, j.start);
    }
    forall c | c in s.clients && s.clients[c].flagged
      ensures RequestKept(u, c, s.clients[c].req) && Le(t, s.clients[c].req)
    {
      assert RequestKept(s, c, s.clients[c].req);
      if ShmTurn(s) {
        NotBeforeAdvances(s.now, t, s.free, s.clients[c].req);
      }
    }
  }

  /** During a turn the clock may move up to the bound. */
  lemma MoveInTurn(s: State, t: Time)
    requires Inv(s) && s.phase == Turn && NotBefore(s.now, s.seen, t) && NotBefore(s.now, t, s.free)
    ensures Good(s, Ok(MoveClock(s, t)))
  {
    var u := MoveClock(s, t);
    MoveBound(s, t);
    forall j | j in s.jobs ensures NotBefore(s.now, t, j.start) {
    }
    MoveQueue(s, t);
    MoveRequests(s, t);
    MoveGrants(s, t);
    WindowOrder(s.now, s.seen, t);
    assert Bound(u);
  }

  lemma ForwardGood(s: State, t: Time)
    requires Inv(s) && Allowed(s, Forward(t))
    ensures Good(s, Step(s, Forward(t)))
  {
    AheadIsGe(s.now, t);
    WindowOrder(s.now, t, s.free);
    if CanRun(s, s.running, t) {
      MoveInTurn(s, t);
    } else {
      RequestUnderShm(s, s.running, t);
    }
  }

  lemma UpdateGood(s: State)
    requires Inv(s) && Allowed(s, SendUpdate)
    ensures Good(s, Step(s, SendUpdate))
  {
    MoveInTurn(s, s.seen);
    if s.jobs != [] {
      WindowOrder(s.now, s.seen, s.jobs[0].start);
    }
  }

  lemma LocalGood(s: State, t: Time)
    requires Inv(s) && Allowed(s, Local(t))
    ensures Good(s, Step(s, Local(t)))
  {
    WindowOrder(s.now, t, s.free);
    if Lt(t, s.free) {
      var u := s.(seen := t);
      WindowOrder(s.now, s.seen, t);
      forall j | j in s.jobs ensures NotBefore(s.now, t, j.start) {
      }
      RequestsAhead(s);
      assert Grants(u);
      assert Requests(u) by {
        forall c | c in s.clients && s.clients[c].flagged ensures RequestKept(u, c, s.clients[c].req) {
          assert RequestKept(s, c, s.clients[c].req);
        }
      }
    } else {
      RequestByMessage(s, s.running, t);
    }
  }

  lemma RequestGood(s: State, id: nat, t: Time)
    requires Inv(s) && Allowed(s, Request(id, t))
    ensures Good(s, Step(s, Request(id, t)))
  {
    AheadIsGe(s.now, t);
    if CanRun(s, id, t) {
      StillProgress(s, s);
    } else if HasShm(s, s.running) {
      RequestUnderShm(s, id, t);
    } else {
      RequestByMessage(s, id, t);
    }
  }

  lemma MessageGood(s: State, id: nat, t: Time)
    requires Inv(s) && Allowed(s, Message(id, t))
    ensures Good(s, Step(s, Message(id, t)))
  {
    if HasShm(s, s.running) {
      RequestUnderShm(s, id, t);
    } else {
      RequestByMessage(s, id, t);
    }
  }

  // ------------------------------------------------------------ taking and giving the run token

  lemma WakeGood(s: State)
    requires Inv(s) && Allowed(s, Wake)
    ensures Good(s, Step(s, Wake))
  {
    var u := Step(s, Wake).s;
    forall c | c in u.clients && u.clients[c].flagged ensures RequestKept(u, c, u.clients[c].req) {
      assert RequestKept(s, c, s.clients[c].req);
    }
    StillProgress(s, u);
  }

  lemma WaitedHistory(s: State, u: State)
    requires Grants(s) && Token(s) && u.log == s.log + [Waited(s.running)]
    requires u.now == s.now && u.elapsed == s.elapsed && u.running == 0
    ensures Grants(u) && Token(u)
  {
    Appended(s.log, Waited(s.running));
  }

  /** After the turn the requests are those of shared memory, none before the time reached. */
  lemma HandOverRequests(s: State, u: State)
    requires Inv(s) && s.phase in {Callback, Turn} && u.phase == Transferring
    requires u.clients == s.clients && u.jobs == s.jobs && u.now == s.now && u.seen == s.seen
    requires u.log == s.log || u.log == s.log + [Waited(s.running)]
    ensures Requests(u)
  {
    RequestsAhead(s);
    forall c | c in u.clients && u.clients[c].flagged ensures RequestKept(u, c, u.clients[c].req) {
      assert RequestKept(s, c, s.clients[c].req);
      LastRequestAppend(s.log, Waited(s.running), c);
    }
  }

  lemma WaitGood(s: State)
    requires Inv(s) && Allowed(s, Wait)
    ensures Good(s, Step(s, Wait)) && Step(s, Wait).s.clients == s.clients && Step(s, Wait).s.jobs == s.jobs
  {
    var u := Step(s, Wait).s;
    WaitedHistory(s, u);
    HandOverRequests(s, u);
    StillProgress(s, u);
  }

  lemma EndCallbackGood(s: State)
    requires Inv(s) && Allowed(s, EndCallback)
    ensures Good(s, Step(s, EndCallback))
  {
    var u := Step(s, EndCallback).s;
    HandOverRequests(s, u);
    StillProgress(s, u);
  }

  lemma KeptWithJobs(s: State, u: State, n: Job)
    requires Requests(s) && n.id !in s.clients && u.phase == s.phase && u.running == s.running && u.log == s.log
    requires u.now == s.now && u.seen == s.seen && s.phase in {Callback, Granted, Turn}
    requires u.clients.Keys == s.clients.Keys
    requires forall c :: c in s.clients ==>
               u.clients[c].flagged == s.clients[c].flagged && u.clients[c].req == s.clients[c].req
               && u.clients[c].shm == s.clients[c].shm
    requires forall j :: j in s.jobs && j.id in s.clients ==> j in u.jobs
    requires forall j :: j in u.jobs ==> j in s.jobs || j == n
    requires ShmTurn(s) ==> u.free == s.free || u.free == s.now
    requires ShmTurn(s) ==> s.running in s.clients
    ensures Requests(u)
  {
    forall c | c in u.clients && u.clients[c].flagged ensures RequestKept(u, c, u.clients[c].req) {
      assert RequestKept(s, c, s.clients[c].req);
      if !ShmTurn(s) {
        var j :| j in s.jobs && j.id == c && j.start == s.clients[c].req;
        assert j in u.jobs;
      }
    }
  }

  /** A job is added only when nobody is ahead of the published clock. */
  lemma AddBound(s: State, u: State)
    requires s.seen == s.now && SameClock(s, u) && SameClients(s, u) && (forall j :: j in u.jobs ==> Le(s.now, j.start))
    requires Le(s.now, u.free) && Dist(s.now, u.free) <= TWO62 && AllNotBefore(s.now, u.free, u.jobs)
    requires s.running in s.clients && !s.clients[s.running].shm ==> u.clients[s.running].sync == Some(u.free)
    ensures Horizon(u) && Bound(u)
  {
  }

  lemma AddQueue(s: State, id: nat, t: Time, priority: nat) returns (u: State)
    requires Inv(s) && Allowed(s, Add(id, t, priority))
    ensures u == AddJob(s, id, t, priority) && SameClock(s, u) && SameClients(s, u) && u.log == s.log
    ensures Queue(u) && Horizon(u) && Bound(u) && (ShmTurn(s) ==> u.free == s.now)
    ensures forall j :: j in u.jobs <==> j in s.jobs || j == Job(id, t, priority, 1, s.stamps)
  {
    u := AddJob(s, id, t, priority);
    AddJobKeeps(s, id, t, priority);
    AddJobEffect(s, id, t, priority);
    AddBound(s, u);
  }

  lemma AddKeeps(s: State, u: State, n: Job)
    requires Inv(s) && n.id !in s.clients && s.phase in {Callback, Granted, Turn}
    requires SameClock(s, u) && SameClients(s, u) && u.log == s.log && (ShmTurn(s) ==> u.free == s.now)
    requires Queue(u) && Horizon(u) && Bound(u) && forall j :: j in u.jobs <==> j in s.jobs || j == n
    ensures Good(s, Ok(u))
  {
    SameHistory(s, u);
    KeptWithJobs(s, u, n);
    StillProgress(s, u);
  }

  lemma AddGood(s: State, id: nat, t: Time, priority: nat)
    requires Inv(s) && Allowed(s, Add(id, t, priority))
    ensures Good(s, Step(s, Add(id, t, priority)))
  {
    AheadIsGe(s.now, t);
    var u := AddQueue(s, id, t, priority);
    AddKeeps(s, u, Job(id, t, priority, 1, s.stamps));
  }

  lemma CancelGood(s: State, id: nat)
    requires Inv(s) && Allowed(s, Cancel(id))
    ensures Good(s, Step(s, Cancel(id)))
  {
    var u := s.(jobs := Delete(s.jobs, id));
    DeleteQueue(s, id);
    KeptWithJobs(s, u, Job(id, 0, 0, 0, 0));
    StillProgress(s, u);
  }

  // ------------------------------------------------------------ transfer of shared-memory requests

  ghost predicate InList(s: State, id: nat)
    requires id in s.clients
  {
    s.clients[id].flagged ==>
      && ScheduledAt(s, id, s.clients[id].req)
      && forall j :: j in s.jobs && j.id == id ==> j.start == s.clients[id].req
  }

  ghost predicate Moving(s: State, todo: seq<nat>) {
    && Inv(s) && s.phase == Transferring
    && forall c :: c in s.clients && c !in todo ==> InList(s, c)
  }

  lemma TransferOneQueue(s: State, id: nat)
    requires Inv(s) && s.phase == Transferring && id in s.clients && s.clients[id].flagged
    ensures var u := Reschedule(s, id, s.clients[id].req); Inv(u)
  {
    var t := s.clients[id].req;
    var u := Reschedule(s, id, t);
    assert RequestKept(s, id, t);
    RescheduleEffect(s, id, t);
    assert Horizon(u);
    forall c | c in u.clients && u.clients[c].flagged ensures RequestKept(u, c, u.clients[c].req) {
      assert RequestKept(s, c, s.clients[c].req);
    }
  }

  lemma TransferOneGood(s: State, todo: seq<nat>)
    requires todo != [] && Moving(s, todo) && todo[0] in s.clients
    ensures var u := TransferOne(s, todo[0]);
            Moving(u, todo[1..]) && StillThere(s, u)
  {
    var id := todo[0];
    var t := s.clients[id].req;
    var u := TransferOne(s, id);
    if s.clients[id].flagged && !ScheduledAt(s, id, t) {
      TransferOneQueue(s, id);
      RescheduleEffect(s, id, t);
      assert Job(id, t, 0, 1, s.stamps) in u.jobs;
      forall c | c in u.clients && c !in todo[1..] ensures InList(u, c) {
        if c != id && s.clients[c].flagged {
          assert c !in todo && InList(s, c);
          var j :| j in s.jobs && j.id == c && j.start == s.clients[c].req;
          assert j in u.jobs;
        }
      }
    } else {
      forall c | c in u.clients && c !in todo[1..] ensures InList(u, c) {
        if c != id { assert c !in todo; }
      }
    }
  }

  /** Everything but the job list, its stamps and the published bound is unchanged, and so are
      the controller's own jobs. */
  ghost predicate StillThere(s: State, u: State) {
    && u == s.(jobs := u.jobs, stamps := u.stamps, free := u.free)
    && forall j: Job :: j.id !in s.clients ==> (j in u.jobs <==> j in s.jobs)
  }

  lemma {:induction false} TransferKeeps(s: State, todo: seq<nat>)
    requires Moving(s, todo) && forall id :: id in todo ==> id in s.clients
    ensures Moving(Transfer(s, todo), []) && StillThere(s, Transfer(s, todo))
    decreases |todo|
  {
    if todo != [] {
      TransferOneGood(s, todo);
      TransferKeeps(TransferOne(s, todo[0]), todo[1..]);
    }
  }

  lemma TransferGood(s: State)
    requires Inv(s) && Allowed(s, TransferAll)
    ensures Good(s, Step(s, TransferAll))
    ensures StillThere(s.(phase := Ready), Step(s, TransferAll).s)
    ensures forall c :: c in s.clients ==> c in Step(s, TransferAll).s.clients && InList(Step(s, TransferAll).s, c)
  {
    TransferKeeps(s, s.order);
    var v := Transfer(s, s.order);
    var u := v.(phase := Ready);
    assert Queue(u) && Roles(u) && Horizon(u) && Bound(u) && Grants(u);
    forall c | c in u.clients && u.clients[c].flagged ensures RequestKept(u, c, u.clients[c].req) {
      assert RequestKept(v, c, v.clients[c].req) && InList(v, c);
    }
    StillProgress(s, u);
  }

  // ------------------------------------------------------------ granting

  lemma TakeHead(s: State)
    requires Inv(s) && s.phase == Ready && s.jobs != []
    ensures var t := MoveClock(s, s.jobs[0].start).(jobs := s.jobs[1..]);
            && Queue(t) && Grants(t) && AllNotBefore(t.now, t.now, t.jobs) && s.elapsed <= t.elapsed
    ensures Le(s.now, s.jobs[0].start) && Le(s.seen, s.jobs[0].start) && Ahead(s.jobs[0].start, s.jobs)
    ensures forall j :: j in s.jobs[1..] <==> j in s.jobs && j.id != s.jobs[0].id
  {
    var head := s.jobs[0];
    HeadIsFirst(s.now, s.jobs);
    WindowOrder(s.now, s.seen, head.start);
    MoveQueue(s, head.start);
    MoveGrants(s, head.start);
    forall j | j in s.jobs[1..] ensures j in s.jobs && j.id != head.id {
      var k :| 1 <= k < |s.jobs| && s.jobs[k] == j;
      assert Before(s.now, head, j);
    }
  }

  lemma NextTime(s: State)
    requires Inv(s) && s.phase == Ready && s.jobs != []
    ensures (if Gt(s.jobs[0].start, s.now) then s.jobs[0].start else s.now) == s.jobs[0].start
  {
    assert s.jobs[0] in s.jobs;
    LaterOrNow(s.now, s.jobs[0].start);
  }

  lemma LaterOrNow(now: Time, t: Time)
    requires Le(now, t)
    ensures Gt(t, now) || t == now
  {
  }

  lemma GrantsAppend(t: State, id: nat)
    requires Grants(t) && Token(t) && t.running == 0 && LastRequest(t.log, id) == Some(t.now)
    ensures var u := t.(log := t.log + [Ran(id, t.now, t.elapsed)], running := id); Grants(u) && Token(u)
  {
    Appended(t.log, Ran(id, t.now, t.elapsed));
  }

  lemma KeptAfterGrant(s: State, u: State, head: Job)
    requires Inv(s) && s.phase == Ready && s.jobs != [] && head == s.jobs[0]
    requires u.clients.Keys == s.clients.Keys && u.log in {s.log, s.log + [Ran(head.id, u.now, u.elapsed)]}
    requires forall c :: c in s.clients ==> u.clients[c].req == s.clients[c].req
    requires forall c :: c in s.clients && c != head.id ==> u.clients[c].flagged == s.clients[c].flagged
    requires head.id in s.clients && !ShmTurn(u) ==> !u.clients[head.id].flagged
    requires ShmTurn(u) ==> u.phase == Granted && u.running == head.id
    requires ShmTurn(u) ==> AllNotBefore(u.now, u.free, u.jobs)
    requires forall j :: j in u.jobs <==> j in s.jobs && j.id != head.id
    requires u.phase != Transferring
    ensures Requests(u)
  {
    forall c | c in u.clients && u.clients[c].flagged ensures RequestKept(u, c, u.clients[c].req) {
      LastRequestAppend(s.log, Ran(head.id, u.now, u.elapsed), c);
      if c != head.id {
        assert RequestKept(s, c, s.clients[c].req);
        var j :| j in s.jobs && j.id == c && j.start == s.clients[c].req;
        assert j in u.jobs;
      }
    }
  }

  lemma NextOwnJob(s: State)
    requires Inv(s) && Allowed(s, RunNext) && s.jobs[0].id !in s.clients
    ensures Good(s, Ok(MoveClock(s, s.jobs[0].start).(jobs := s.jobs[1..], phase := Callback)))
  {
    TakeHead(s);
    var u := MoveClock(s, s.jobs[0].start).(jobs := s.jobs[1..], phase := Callback);
    KeptAfterGrant(s, u, s.jobs[0]);
    NextProgress(s, u);
  }

  lemma NextClient(s: State, t: State, u: State)
    requires Inv(s) && Allowed(s, RunNext) && s.jobs[0].id in s.clients
    requires t == MoveClock(s, s.jobs[0].start).(jobs := s.jobs[1..])
    requires u.now == t.now && u.jobs == t.jobs && u.stamps == t.stamps && u.order == t.order && u.seen == t.seen
    requires u.elapsed == t.elapsed && u.log == t.log + [Ran(s.jobs[0].id, t.now, t.elapsed)]
    requires u.free == SyncTime(t.now, t.jobs) && u.running == s.jobs[0].id
    requires u.clients.Keys == s.clients.Keys
    requires forall c :: c in s.clients ==>
               u.clients[c].req == s.clients[c].req && u.clients[c].shm == s.clients[c].shm
    requires forall c :: c in s.clients && c != u.running ==> u.clients[c].flagged == s.clients[c].flagged
    requires if s.clients[u.running].shm then u.phase == Granted
             else u.phase == Turn && !u.clients[u.running].flagged && u.clients[u.running].sync == Some(u.free)
    ensures Good(s, Ok(u))
  {
    TakeHead(s);
    assert RequestKept(s, u.running, s.clients[u.running].req);
    GrantsAppend(t, u.running);
    SyncBetween(t.now, t.jobs);
    assert Queue(u) && Roles(u) && Horizon(u) && Bound(u) && Grants(u) && Token(u);
    KeptAfterGrant(s, u, s.jobs[0]);
    NextProgress(s, u);
  }

  lemma NextGood(s: State)
    requires Inv(s) && Allowed(s, RunNext)
    ensures Good(s, Step(s, RunNext))
  {
    NextTime(s);
    if s.jobs[0].id in s.clients {
      NextClient(s, MoveClock(s, s.jobs[0].start).(jobs := s.jobs[1..]), Next(s));
    } else {
      NextOwnJob(s);
    }
  }

  lemma NextProgress(s: State, u: State)
    requires Inv(s) && s.phase == Ready && Le(s.now, u.now) && Le(s.seen, u.seen) && s.elapsed <= u.elapsed
    requires s.log <= u.log && s.order == u.order && s.clients.Keys == u.clients.Keys && Ahead(u.now, s.jobs)
    ensures Progress(s, u)
  {
    forall c | c in s.clients && s.clients[c].flagged ensures Le(u.now, s.clients[c].req) {
      assert RequestKept(s, c, s.clients[c].req);
    }
  }

  // ------------------------------------------------------------ whole runs

  /** One event: no assertion of the code fails, the invariant is kept, and the clock moves
      only forward and past no pending request. */
  lemma StepGood(s: State, e: Event)
    requires Inv(s) && Allowed(s, e)
    ensures Good(s, Step(s, e))
  {
    match e
    case RunNext => NextGood(s);
    case Wake => WakeGood(s);
    case Forward(t) => ForwardGood(s, t);
    case Request(id, t) => RequestGood(s, id, t);
    case Message(id, t) => MessageGood(s, id, t);
    case Local(t) => LocalGood(s, t);
    case SendUpdate => UpdateGood(s);
    case Wait => WaitGood(s);
    case Add(id, t, priority) => AddGood(s, id, t, priority);
    case Cancel(id) => CancelGood(s, id);
    case EndCallback => EndCallbackGood(s);
    case TransferAll => TransferGood(s);
  }

  /** A run: every event is allowed where it happens, `last` is the state it ends in. */
  ghost predicate Run(s: State, es: seq<Event>, last: Outcome<State>)
    decreases |es|
  {
    if es == [] then last == Ok(s)
    else
      && Known(s) && Allowed(s, es[0])
      && match Step(s, es[0])
         case Ok(t) => Run(t, es[1..], last)
         case Aborted => last == Aborted
  }

  lemma {:induction false} RunGood(s: State, es: seq<Event>, last: Outcome<State>)
    requires Inv(s) && Run(s, es, last)
    ensures last.Ok? && Inv(last.s) && s.elapsed <= last.s.elapsed && s.log <= last.s.log
    decreases |es|
  {
    if es != [] {
      StepGood(s, es[0]);
      RunGood(Step(s, es[0]).s, es[1..], last);
    }
  }

  /** The requests clients have made by the time scheduling starts. */
  function StartLog(clients: map<nat, Client>, order: seq<nat>): seq<Entry>
    requires forall id :: id in order ==> id in clients
  {
    if order == [] then []
    else
      var id := order[|order| - 1];
      StartLog(clients, order[..|order| - 1]) + (if clients[id].flagged then [Requested(id, clients[id].req)] else [])
  }

  /** The state in which scheduling starts: no job is queued, requests are in shared memory. */
  ghost predicate Initial(s: State) {
    && s.phase == Transferring && s.running == 0 && s.jobs == [] && s.seen == s.now && s.elapsed == s.now
    && 0 !in s.clients && (forall id :: id in s.clients <==> id in s.order)
    && s.log == StartLog(s.clients, s.order)
    && forall id :: id in s.clients && s.clients[id].flagged ==> Le(s.now, s.clients[id].req)
  }

  lemma {:induction false} StartLogRequests(clients: map<nat, Client>, order: seq<nat>)
    requires forall id :: id in order ==> id in clients
    ensures var log := StartLog(clients, order);
            && (forall i :: 0 <= i < |log| ==> log[i].Requested?)
            && Holder(log) == 0
            && forall id :: id in order && clients[id].flagged ==> LastRequest(log, id) == Some(clients[id].req)
  {
    if order != [] {
      var id, rest := order[|order| - 1], order[..|order| - 1];
      StartLogRequests(clients, rest);
      if clients[id].flagged {
        var log, e := StartLog(clients, rest), Requested(id, clients[id].req);
        Appended(log, e);
        forall c | c in order && clients[c].flagged ensures LastRequest(log + [e], c) == Some(clients[c].req) {
          LastRequestAppend(log, e, c);
        }
      } else {
        assert StartLog(clients, order) == StartLog(clients, rest);
      }
    }
  }

  lemma InitialInv(s: State)
    requires Initial(s)
    ensures Inv(s)
  {
    StartLogRequests(s.clients, s.order);
  }

  /** While a shared-memory client runs, the clock has not passed the bound, and the bound
      has passed neither a job of the controller nor a request of another client. */
  ghost predicate NothingOverrun(s: State) {
    ShmTurn(s) ==>
      && Le(s.now, s.free)
      && (forall j :: j in s.jobs ==> Le(s.free, j.start))
      && forall id :: id in s.clients && id != s.running && s.clients[id].flagged ==> Le(s.free, s.clients[id].req)
  }

  lemma InvNothingOverrun(s: State)
    requires Inv(s)
    ensures NothingOverrun(s)
  {
    if ShmTurn(s) {
      forall j | j in s.jobs ensures Le(s.free, j.start) {
        WindowOrder(s.now, s.free, j.start);
      }
      forall id | id in s.clients && id != s.running && s.clients[id].flagged ensures Le(s.free, s.clients[id].req) {
        assert RequestKept(s, id, s.clients[id].req);
        WindowOrder(s.now, s.free, s.clients[id].req);
      }
    }
  }

  /** Safety of every run: no assertion fails, nothing is overrun, and the clock has not
      moved back. */
  lemma RunSafe(s: State, es: seq<Event>, last: Outcome<State>)
    requires Initial(s) && Run(s, es, last)
    ensures last.Ok? && NothingOverrun(last.s) && s.elapsed <= last.s.elapsed
    ensures Wrap(last.s.elapsed) == last.s.now
  {
    InitialInv(s);
    RunGood(s, es, last);
    InvNothingOverrun(last.s);
  }

  /** Every run: a client is told to run exactly at its most recent request, only while no
      other client holds the run token, and in the order of time across all clients. */
  lemma RunGrants(s: State, es: seq<Event>, last: Outcome<State>)
    requires Initial(s) && Run(s, es, last)
    ensures last.Ok?
    ensures var log := last.s.log;
            && (forall i :: 0 <= i < |log| && log[i].Ran? ==>
                  && LastRequest(log[..i], log[i].id) == Some(log[i].time)
                  && Holder(log[..i]) == 0
                  && Wrap(log[i].elapsed) == log[i].time)
            && forall i, j :: 0 <= i < j < |log| && log[i].Ran? && log[j].Ran? ==> log[i].elapsed <= log[j].elapsed
  {
    InitialInv(s);
    RunGood(s, es, last);
  }

  // ------------------------------------------------------------ a job added late

  /** Dist(now, bound) of the recomputed bound is the least of these three distances. */
  predicate Reaches(s: State, t: Time, d: int) {
    Dist(s.now, t) <= d || TWO62 <= d || (s.jobs != [] && Dist(s.now, s.jobs[0].start) <= d)
  }

  lemma LateBound(s: State, id: nat, t: Time, priority: nat, d: int)
    requires Queue(s) && !Scheduled(s.jobs, id) && Le(s.now, t)
    ensures Dist(s.now, AddJob(s, id, t, priority).free) <= d <==> Reaches(s, t, d)
  {
    var j := Job(id, t, priority, 1, s.stamps);
    InsertQueue(s.now, s.jobs, j);
    InsertHead(s.jobs, j);
    HeadIsFirst(s.now, Insert(s.jobs, j));
    SyncReaches(s.now, Insert(s.jobs, j), d);
  }

  lemma SyncReaches(now: Time, r: seq<Job>, d: int)
    requires r != [] && Le(now, r[0].start)
    ensures Dist(now, SyncTime(now, r)) <= d <==> TWO62 <= d || Dist(now, r[0].start) <= d
  {
    FarAhead(now);
    WindowOrder(now, r[0].start, Wrap(now + TWO62));
  }

  lemma InsertHead(l: seq<Job>, j: Job)
    ensures var r := Insert(l, j);
            j in r && (r[0] == j || (l != [] && r[0] == l[0])) && (l != [] ==> l[0] in r)
  {
  }

  lemma LateBoundCovers(s: State, id: nat, t: Time, priority: nat, c: nat)
    requires Inv(s) && ShmTurn(s) && !Scheduled(s.jobs, id) && Le(s.now, t)
    requires c in s.clients && c != s.running && s.clients[c].flagged
    ensures Le(AddJob(s, id, t, priority).free, s.clients[c].req) <==> Reaches(s, t, Dist(s.now, s.clients[c].req))
  {
    AddJobEffect(s, id, t, priority);
    assert RequestKept(s, c, s.clients[c].req);
    WindowOrder(s.now, AddJob(s, id, t, priority).free, s.clients[c].req);
    LateBound(s, id, t, priority, Dist(s.now, s.clients[c].req));
  }

  lemma LateBoundJobs(s: State, id: nat, t: Time, priority: nat)
    requires Inv(s) && ShmTurn(s) && !Scheduled(s.jobs, id) && Le(s.now, t)
    ensures var u := AddJob(s, id, t, priority);
            && u.now == s.now && u.running == s.running && u.clients == s.clients && u.phase == s.phase
            && Le(u.now, u.free) && forall j :: j in u.jobs ==> Le(u.free, j.start)
  {
    var u := AddJob(s, id, t, priority);
    AddJobEffect(s, id, t, priority);
    forall j | j in u.jobs ensures Le(u.free, j.start) {
      WindowOrder(s.now, u.free, j.start);
    }
  }

  /** update_sync looks at the job list only. A job the controller adds during a
      shared-memory turn keeps the bound safe if and only if every request that another
      client has made is covered: by that job, by the first job, or by lying 2^62 away. */
  lemma LateJobSafeIff(s: State, id: nat, t: Time, priority: nat)
    requires Inv(s) && ShmTurn(s) && !Scheduled(s.jobs, id) && Le(s.now, t)
    ensures NothingOverrun(AddJob(s, id, t, priority)) <==>
            forall c :: c in s.clients && c != s.running && s.clients[c].flagged ==>
              Reaches(s, t, Dist(s.now, s.clients[c].req))
  {
    LateBoundJobs(s, id, t, priority);
    forall c | c in s.clients && c != s.running && s.clients[c].flagged
      ensures Le(AddJob(s, id, t, priority).free, s.clients[c].req) <==> Reaches(s, t, Dist(s.now, s.clients[c].req))
    {
      LateBoundCovers(s, id, t, priority, c);
    }
  }
}
