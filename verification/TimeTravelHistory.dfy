/** What each event of the time-travel protocol does, in terms of the requests that are
    pending, wherever they are kept, and what the history says about them over whole runs. */
module TimeTravelHistory {
  import opened Wrappers
  import opened CyclicTime
  import opened JobList
  import opened TimeTravel
  import opened TimeTravelSafety

  /** Something to run: a client for its request, or a job of the controller. */
  datatype Due = Due(id: nat, start: Time, priority: nat)

  /** The pending requests, in shared memory or on the job list. A client that has been told to
      run and has not woken up yet has none. */
  ghost function Pending(s: State): map<nat, Time> {
    map id | id in s.clients && s.clients[id].flagged && !(s.phase == Granted && id == s.running) :: s.clients[id].req
  }

  /** The controller's own jobs. */
  ghost function Own(s: State): set<Due> {
    set j | j in s.jobs && j.id !in s.clients :: Due(j.id, j.start, j.priority)
  }

  ghost predicate IsDue(s: State, d: Due) {
    d in Own(s) || (d.id in Pending(s) && d.start == Pending(s)[d.id] && d.priority == 0)
  }

  /** Nothing is due before `d`, and nothing at the same time with higher priority. */
  ghost predicate IsNext(s: State, d: Due) {
    IsDue(s, d) && forall x :: IsDue(s, x) ==> NotBefore(s.now, d.start, x.start) && (x.start == d.start ==> x.priority <= d.priority)
  }

  /** `b` is the latest time, at most 2^62 away, that is not after any job. */
  ghost predicate Tightest(now: Time, b: Time, jobs: seq<Job>) {
    && Le(now, b) && Dist(now, b) <= TWO62 && AllNotBefore(now, b, jobs)
    && forall c :: Le(now, c) && Dist(now, c) <= TWO62 && AllNotBefore(now, c, jobs) ==> NotBefore(now, c, b)
  }

  ghost predicate SameTurn(s: State, t: State) {
    t.now == s.now && t.running == s.running && t.phase == s.phase
  }

  /** The clients and their capabilities are fixed. */
  ghost predicate SameCaps(s: State, t: State) {
    t.order == s.order && t.clients.Keys == s.clients.Keys && forall c :: c in s.clients ==> t.clients[c].shm == s.clients[c].shm
  }

  /** Client `id` has asked for time `at`; whoever runs works with a bound that covers it. */
  ghost predicate Asks(s: State, t: State, id: nat, at: Time) {
    && SameTurn(s, t) && t.seen == s.seen && t.elapsed == s.elapsed && SameCaps(s, t)
    && Pending(t) == Pending(s)[id := at] && Own(t) == Own(s) && t.log == s.log + [Requested(id, at)]
    && if HasShm(s, s.running) then Dist(s.now, t.free) == (if Dist(s.now, at) < Dist(s.now, s.free) then Dist(s.now, at) else Dist(s.now, s.free))
       else Tightest(t.now, t.free, t.jobs)
  }

  ghost predicate SameWork(s: State, t: State) {
    Pending(t) == Pending(s) && Own(t) == Own(s)
  }

  /** The next due client or job, `d`, gets to run at exactly its time. */
  ghost predicate Runs(s: State, t: State, d: Due) {
    && IsNext(s, d) && t.now == t.seen == d.start && t.elapsed == s.elapsed + Dist(s.now, d.start)
    && Pending(t) == Pending(s) - {d.id} && Own(t) == Own(s) - {d}
    && if d.id in s.clients then
         && t.running == d.id && t.phase == (if s.clients[d.id].shm then Granted else Turn)
         && t.log == s.log + [Ran(d.id, d.start, t.elapsed)] && Tightest(t.now, t.free, t.jobs)
       else t.running == 0 && t.phase == Callback && t.log == s.log
  }

  /** What event `e` does. */
  ghost predicate Does(s: State, e: Event, t: State)
    requires Known(s) && Allowed(s, e)
  {
    match e
    case RunNext => exists d :: Runs(s, t, d)
    case Forward(at) =>
      if Lt(at, s.free) then Moves(s, t, at) && t.now == at else Asks(s, t, s.running, at)
    case Request(id, at) =>
      if HasShm(s, s.running) && id == s.running && s.phase == Turn && Lt(at, s.free) then t == s else Asks(s, t, id, at)
    case Message(id, at) => Asks(s, t, id, at)
    case Local(at) =>
      if s.clients[s.running].sync.Some? && Lt(at, s.clients[s.running].sync.value)
      then Moves(s, t, at) && t.now == s.now else Asks(s, t, s.running, at)
    case SendUpdate => Moves(s, t, s.seen) && t.now == s.seen
    case Add(id, at, priority) =>
      && SameTurn(s, t) && t.seen == s.seen && t.log == s.log && Pending(t) == Pending(s)
      && Own(t) == Own(s) + {Due(id, at, priority)} && Tightest(t.now, t.free, t.jobs)
    case Cancel(id) =>
      && SameTurn(s, t) && t.seen == s.seen && t.log == s.log && t.free == s.free && Pending(t) == Pending(s)
      && Own(t) == set d | d in Own(s) && d.id != id
    case Wake => SameWork(s, t) && t.now == s.now && t.seen == s.seen && t.running == s.running && t.phase == Turn && t.log == s.log && t.free == s.free
    case Wait =>
      SameWork(s, t) && t.now == s.now && t.seen == s.seen && t.running == 0 && t.phase == Transferring && t.log == s.log + [Waited(s.running)]
    case EndCallback =>
      SameWork(s, t) && t.now == s.now && t.seen == s.seen && t.running == 0 && t.phase == Transferring && t.log == s.log
    case TransferAll =>
      SameWork(s, t) && t.now == s.now && t.seen == s.seen && t.running == 0 && t.phase == Ready && t.log == s.log
  }

  /** The running client has reached time `at`. */
  ghost predicate Moves(s: State, t: State, at: Time) {
    && t.seen == at && SameWork(s, t) && t.running == s.running && t.phase == s.phase && t.log == s.log && t.free == s.free
  }

  /** A client's entry on the job list has priority 0. */
  ghost predicate Plain(s: State) {
    forall j :: j in s.jobs && j.id in s.clients ==> j.priority == 0
  }

  /** The event succeeds and does what it should; the unwrapped clock moves with the clock. */
  ghost predicate Done(s: State, e: Event)
    requires Known(s) && Allowed(s, e)
  {
    && Step(s, e).Ok? && Does(s, e, Step(s, e).s) && Plain(Step(s, e).s)
    && Step(s, e).s.elapsed == s.elapsed + Dist(s.now, Step(s, e).s.now) && SameCaps(s, Step(s, e).s)
  }

  // ------------------------------------------------------------ requests

  lemma SameOwn(s: State, t: State)
    requires t.clients.Keys == s.clients.Keys
    requires forall j: Job :: j.id !in s.clients ==> (j in t.jobs <==> j in s.jobs)
    ensures Own(t) == Own(s)
  {
  }

  lemma AsksUnderShm(s: State, id: nat, at: Time)
    requires Inv(s) && ShmTurn(s) && id in s.clients && MayAsk(s, id, at)
    ensures Asks(s, LowerFree(Store(s, id, at), at), id, at)
  {
    var t := LowerFree(Store(s, id, at), at);
    WindowOrder(s.now, at, s.free);
    SameOwn(s, t);
    assert Pending(t) == Pending(s)[id := at];
  }

  lemma PendingBut(s: State, t: State, id: nat, at: Time)
    requires SameRequestsBut(s, t, id, at) && t.phase == s.phase != Granted
    ensures Pending(t) == Pending(s)[id := at]
  {
  }

  lemma AsksByMessage(s: State, id: nat, at: Time)
    requires Inv(s) && !HasShm(s, s.running) && id in s.clients && MayAsk(s, id, at)
    ensures HandleRequest(s, id, at) == Ok(Reschedule(Store(s, id, at), id, at))
    ensures Asks(s, Reschedule(Store(s, id, at), id, at), id, at)
  {
    var t := Reschedule(Store(s, id, at), id, at);
    AheadIsGe(s.now, at);
    MessageKeepsHistory(s, id, at);
    MessageQueue(s, id, at);
    PendingBut(s, t, id, at);
    SameOwn(s, t);
  }

  lemma PlainBut(s: State, t: State, n: Job)
    requires Plain(s) && t.clients.Keys == s.clients.Keys && (n.id in s.clients ==> n.priority == 0)
    requires forall j :: j in t.jobs ==> j in s.jobs || j == n
    ensures Plain(t)
  {
  }

  lemma RequestDoes(s: State, id: nat, at: Time)
    requires Inv(s) && Plain(s) && id in s.clients && MayAsk(s, id, at)
    ensures var t := (if HasShm(s, s.running) then LowerFree(Store(s, id, at), at) else Reschedule(Store(s, id, at), id, at));
            Asks(s, t, id, at) && Plain(t)
  {
    if HasShm(s, s.running) {
      AsksUnderShm(s, id, at);
    } else {
      AsksByMessage(s, id, at);
      MessageQueue(s, id, at);
      PlainBut(s, Reschedule(Store(s, id, at), id, at), Job(id, at, 0, 1, s.stamps));
    }
  }

  // ------------------------------------------------------------ the other events

  lemma MoveDoes(s: State, at: Time)
    requires Inv(s) && Plain(s) && s.phase == Turn && Le(s.now, at)
    ensures var t := MoveClock(s, at); Moves(s, t, at) && t.now == at && Plain(t) && t.elapsed == s.elapsed + Dist(s.now, at)
  {
    SameOwn(s, MoveClock(s, at));
  }

  lemma AddDoes(s: State, id: nat, at: Time, priority: nat)
    requires Inv(s) && Plain(s) && Allowed(s, Add(id, at, priority))
    ensures Done(s, Add(id, at, priority))
  {
    AheadIsGe(s.now, at);
    AddLists(s, id, at, priority);
    AddJobKeeps(s, id, at, priority);
  }

  lemma AddLists(s: State, id: nat, at: Time, priority: nat)
    requires Queue(s) && Plain(s) && id !in s.clients && !Scheduled(s.jobs, id) && Le(s.now, at)
    ensures var t := AddJob(s, id, at, priority);
            && Plain(t) && Tightest(t.now, t.free, t.jobs)
            && Pending(t) == Pending(s) && Own(t) == Own(s) + {Due(id, at, priority)}
  {
    AddJobEffect(s, id, at, priority);
    AddJobKeeps(s, id, at, priority);
    AddsTo(s, AddJob(s, id, at, priority), Job(id, at, priority, 1, s.stamps));
  }

  lemma AddsTo(s: State, t: State, n: Job)
    requires Plain(s) && SameClock(s, t) && SameClients(s, t) && n.id !in s.clients
    requires forall j :: j in t.jobs <==> j in s.jobs || j == n
    ensures Plain(t) && Pending(t) == Pending(s) && Own(t) == Own(s) + {Due(n.id, n.start, n.priority)}
  {
    PlainBut(s, t, n);
    OwnPlus(s, t, n);
  }

  lemma OwnPlus(s: State, t: State, n: Job)
    requires t.clients.Keys == s.clients.Keys && n.id !in s.clients && forall j :: j in t.jobs <==> j in s.jobs || j == n
    ensures Own(t) == Own(s) + {Due(n.id, n.start, n.priority)}
  {
    forall d ensures d in Own(t) <==> d in Own(s) + {Due(n.id, n.start, n.priority)} {
      if d == Due(n.id, n.start, n.priority) { assert n in t.jobs; }
    }
  }

  lemma CancelDoes(s: State, id: nat)
    requires Inv(s) && Plain(s) && Allowed(s, Cancel(id))
    ensures Done(s, Cancel(id))
  {
    var t := s.(jobs := Delete(s.jobs, id));
    forall d ensures d in Own(t) <==> d in Own(s) && d.id != id {
    }
  }

  lemma TransferDoes(s: State)
    requires Inv(s) && Plain(s) && Allowed(s, TransferAll)
    ensures Done(s, TransferAll)
  {
    TransferGood(s);
    TransferPlain(s, s.order);
    SameOwn(s, Step(s, TransferAll).s);
  }

  lemma {:induction false} TransferPlain(s: State, todo: seq<nat>)
    requires Moving(s, todo) && Plain(s) && forall id :: id in todo ==> id in s.clients
    ensures Plain(Transfer(s, todo))
    decreases |todo|
  {
    if todo != [] {
      var id := todo[0];
      TransferOneGood(s, todo);
      if s.clients[id].flagged {
        assert RequestKept(s, id, s.clients[id].req);
        RescheduleEffect(s, id, s.clients[id].req);
      }
      TransferPlain(TransferOne(s, id), todo[1..]);
    }
  }

  // ------------------------------------------------------------ running the next one

  /** When the controller is ready, the job list is exactly what is due. */
  lemma ListIsDue(s: State, j: Job)
    requires Inv(s) && Plain(s) && s.phase == Ready && j in s.jobs
    ensures IsDue(s, Due(j.id, j.start, j.priority))
  {
    if j.id in s.clients {
      assert RequestKept(s, j.id, s.clients[j.id].req);
    }
  }

  lemma DueIsListed(s: State, d: Due) returns (j: Job)
    requires Inv(s) && Plain(s) && s.phase == Ready && IsDue(s, d)
    ensures j in s.jobs && d == Due(j.id, j.start, j.priority)
  {
    if d in Own(s) {
      j :| j in s.jobs && j.id !in s.clients && Due(j.id, j.start, j.priority) == d;
    } else {
      assert RequestKept(s, d.id, s.clients[d.id].req);
      j :| j in s.jobs && j.id == d.id && j.start == d.start;
    }
  }

  lemma HeadIsNext(s: State)
    requires Inv(s) && Plain(s) && s.phase == Ready && s.jobs != []
    ensures IsNext(s, Due(s.jobs[0].id, s.jobs[0].start, s.jobs[0].priority))
  {
    var h := s.jobs[0];
    HeadIsFirst(s.now, s.jobs);
    ListIsDue(s, h);
    forall x | IsDue(s, x) ensures NotBefore(s.now, h.start, x.start) && (x.start == h.start ==> x.priority <= h.priority) {
      var j := DueIsListed(s, x);
      var k :| 0 <= k < |s.jobs| && s.jobs[k] == j;
      assert k > 0 ==> Before(s.now, h, j);
    }
  }

  lemma NextPending(s: State, t: State, id: nat)
    requires s.phase == Ready && t.clients.Keys == s.clients.Keys
    requires forall c :: c in s.clients ==> t.clients[c].req == s.clients[c].req
    requires forall c :: c in s.clients && c != id ==> t.clients[c].flagged == s.clients[c].flagged
    requires id in s.clients ==> (t.phase == Granted && t.running == id) || !t.clients[id].flagged
    requires t.phase == Granted ==> t.running == id
    ensures Pending(t) == Pending(s) - {id}
  {
  }

  lemma NextOwn(s: State, t: State, h: Job)
    requires Unique(s.jobs) && h in s.jobs && t.clients.Keys == s.clients.Keys
    requires forall j :: j in t.jobs <==> j in s.jobs && j.id != h.id
    ensures Own(t) == Own(s) - {Due(h.id, h.start, h.priority)}
  {
    forall d ensures d in Own(t) <==> d in Own(s) && d != Due(h.id, h.start, h.priority) {
      if d in Own(s) && d.id == h.id {
        var j :| j in s.jobs && j.id !in s.clients && Due(j.id, j.start, j.priority) == d;
        assert j == h;
      }
    }
  }

  /** What running the entry `h` leaves. */
  ghost predicate Left(s: State, t: State, h: Job) {
    && t.now == t.seen == h.start && t.elapsed == s.elapsed + Dist(s.now, h.start) && t.clients.Keys == s.clients.Keys
    && (forall j :: j in t.jobs <==> j in s.jobs && j.id != h.id)
    && (forall c :: c in s.clients ==> t.clients[c].req == s.clients[c].req)
    && (forall c :: c in s.clients && c != h.id ==> t.clients[c].flagged == s.clients[c].flagged)
    && if h.id in s.clients then
         && t.running == h.id && t.phase == (if s.clients[h.id].shm then Granted else Turn)
         && (t.phase == Turn ==> !t.clients[h.id].flagged)
         && t.log == s.log + [Ran(h.id, h.start, t.elapsed)] && t.free == SyncTime(t.now, t.jobs)
       else t.running == s.running && t.phase == Callback && t.log == s.log
  }

  lemma NextLeaves(s: State)
    requires Inv(s) && Allowed(s, RunNext)
    ensures Left(s, Next(s), s.jobs[0]) && Queue(Next(s))
  {
    TakeHead(s);
    NextTime(s);
    assert Le(s.now, s.jobs[0].start);
  }

  lemma LeftRuns(s: State, t: State, h: Job)
    requires Inv(s) && s.phase == Ready && h in s.jobs && Left(s, t, h) && Queue(t)
    requires IsNext(s, Due(h.id, h.start, h.priority))
    ensures Runs(s, t, Due(h.id, h.start, h.priority))
  {
    NextPending(s, t, h.id);
    NextOwn(s, t, h);
    SyncBetween(t.now, t.jobs);
  }

  lemma NextDoes(s: State)
    requires Inv(s) && Plain(s) && Allowed(s, RunNext)
    ensures Done(s, RunNext)
  {
    var h := s.jobs[0];
    HeadIsNext(s);
    NextLeaves(s);
    LeftRuns(s, Next(s), h);
  }

  // ------------------------------------------------------------ every event

  lemma StepDoes(s: State, e: Event)
    requires Inv(s) && Plain(s) && Allowed(s, e)
    ensures Done(s, e)
  {
    match e
    case RunNext => NextDoes(s);
    case Wake => TokenDoes(s, e);
    case Forward(at) => ForwardDoes(s, at);
    case Request(id, at) => AskDoes(s, id, at);
    case Message(id, at) => MessageDoes(s, id, at);
    case Local(at) => LocalDoes(s, at);
    case SendUpdate => UpdateDoes(s);
    case Wait => TokenDoes(s, e);
    case Add(id, at, priority) => AddDoes(s, id, at, priority);
    case Cancel(id) => CancelDoes(s, id);
    case EndCallback => TokenDoes(s, e);
    case TransferAll => TransferDoes(s);
  }

  lemma TokenDoes(s: State, e: Event)
    requires Inv(s) && Plain(s) && Allowed(s, e) && (e.Wake? || e.Wait? || e.EndCallback?)
    ensures Done(s, e)
  {
    SameOwn(s, Step(s, e).s);
  }

  /** A REQUEST succeeds, and is pending afterwards. */
  lemma HandleDoes(s: State, id: nat, at: Time) returns (t: State)
    requires Inv(s) && Plain(s) && id in s.clients && MayAsk(s, id, at) && Le(s.now, at)
    ensures HandleRequest(s, id, at) == Ok(t) && Asks(s, t, id, at) && Plain(t)
  {
    AheadIsGe(s.now, at);
    RequestDoes(s, id, at);
    t := HandleRequest(s, id, at).s;
  }

  lemma AskedIsDone(s: State, e: Event, t: State, id: nat, at: Time)
    requires Known(s) && Allowed(s, e) && Step(s, e) == Ok(t) && Asks(s, t, id, at) && Plain(t) && Does(s, e, t)
    ensures Done(s, e)
  {
    assert Dist(s.now, s.now) == 0;
  }

  lemma MessageDoes(s: State, id: nat, at: Time)
    requires Inv(s) && Plain(s) && Allowed(s, Message(id, at))
    ensures Done(s, Message(id, at))
  {
    var t := HandleDoes(s, id, at);
    AskedIsDone(s, Message(id, at), t, id, at);
  }

  lemma AskDoes(s: State, id: nat, at: Time)
    requires Inv(s) && Plain(s) && Allowed(s, Request(id, at))
    ensures Done(s, Request(id, at))
  {
    AheadIsGe(s.now, at);
    RequestDoes(s, id, at);
  }

  lemma UpdateDoes(s: State)
    requires Inv(s) && Plain(s) && Allowed(s, SendUpdate)
    ensures Done(s, SendUpdate)
  {
    UpdateGood(s);
    MoveDoes(s, s.seen);
  }

  lemma ForwardDoes(s: State, at: Time)
    requires Inv(s) && Plain(s) && Allowed(s, Forward(at))
    ensures Done(s, Forward(at))
  {
    if Lt(at, s.free) {
      ForwardMoves(s, at);
    } else {
      ForwardAsks(s, at);
    }
  }

  lemma ForwardMoves(s: State, at: Time)
    requires Inv(s) && Plain(s) && Allowed(s, Forward(at)) && Lt(at, s.free)
    ensures Done(s, Forward(at))
  {
    ForwardGood(s, at);
    MoveDoes(s, at);
  }

  lemma ForwardAsks(s: State, at: Time)
    requires Inv(s) && Plain(s) && Allowed(s, Forward(at)) && !Lt(at, s.free)
    ensures Done(s, Forward(at))
  {
    AheadIsGe(s.now, at);
    RequestDoes(s, s.running, at);
  }

  lemma LocalDoes(s: State, at: Time)
    requires Inv(s) && Plain(s) && Allowed(s, Local(at))
    ensures Done(s, Local(at))
  {
    var sync := s.clients[s.running].sync;
    if sync.Some? && Lt(at, sync.value) {
      SameOwn(s, s.(seen := at));
    } else {
      LocalAsks(s, at);
    }
  }

  lemma LocalAsks(s: State, at: Time)
    requires Inv(s) && Plain(s) && Allowed(s, Local(at))
    requires s.clients[s.running].sync.None? || !Lt(at, s.clients[s.running].sync.value)
    ensures Done(s, Local(at))
  {
    var t := HandleDoes(s, s.running, at);
    AskedIsDone(s, Local(at), t, s.running, at);
  }

  // ------------------------------------------------------------ the history

  /** Of the requests and grants of client `id`, the last one is a request. */
  function Asked(log: seq<Entry>, id: nat): bool {
    if log == [] then false
    else
      var last := log[|log| - 1];
      if last.Requested? && last.id == id then true
      else if last.Ran? && last.id == id then false
      else Asked(log[..|log| - 1], id)
  }

  /** A client has a request pending exactly if it has asked since it was last told to run, and
      then for the time it asked for last. */
  ghost predicate Tracked(s: State) {
    forall id :: id in s.clients ==>
      && (id in Pending(s) <==> Asked(s.log, id))
      && (id in Pending(s) ==> LastRequest(s.log, id) == Some(Pending(s)[id]))
  }

  lemma AskedAppend(log: seq<Entry>, e: Entry, id: nat)
    ensures Asked(log + [e], id) ==
              if e.Requested? && e.id == id then true else if e.Ran? && e.id == id then false else Asked(log, id)
  {
    Appended(log, e);
  }

  /** Tracking is kept when the pending requests and the history change in step. */
  lemma TrackedBy(s: State, t: State, e: Entry)
    requires Tracked(s) && t.clients.Keys == s.clients.Keys && t.log == s.log + [e]
    requires Pending(t) == match e
                           case Requested(id, at) => Pending(s)[id := at]
                           case Ran(id, _, _) => Pending(s) - {id}
                           case Waited(_) => Pending(s)
    ensures Tracked(t)
  {
    forall id | id in t.clients
      ensures id in Pending(t) <==> Asked(t.log, id)
      ensures id in Pending(t) ==> LastRequest(t.log, id) == Some(Pending(t)[id])
    {
      AskedAppend(s.log, e, id);
      LastRequestAppend(s.log, e, id);
    }
  }

  lemma StepTracked(s: State, e: Event)
    requires Inv(s) && Plain(s) && Tracked(s) && Allowed(s, e)
    ensures Step(s, e).Ok? && Tracked(Step(s, e).s)
  {
    StepGood(s, e);
    StepDoes(s, e);
    var t := Step(s, e).s;
    if t.log != s.log {
      var n := t.log[|s.log|];
      assert t.log == s.log + [n];
      DoesTracks(s, e, t, n);
      TrackedBy(s, t, n);
    } else {
      DoesKeeps(s, e, t);
    }
  }

  lemma DoesTracks(s: State, e: Event, t: State, n: Entry)
    requires Inv(s) && Plain(s) && Allowed(s, e) && Does(s, e, t) && t.log == s.log + [n]
    ensures Pending(t) == match n
                          case Requested(id, at) => Pending(s)[id := at]
                          case Ran(id, _, _) => Pending(s) - {id}
                          case Waited(_) => Pending(s)
  {
    assert n == t.log[|s.log|];
  }

  lemma DoesKeeps(s: State, e: Event, t: State)
    requires Inv(s) && Plain(s) && Tracked(s) && Allowed(s, e) && Does(s, e, t) && t.log == s.log && t.clients.Keys == s.clients.Keys
    ensures Tracked(t)
  {
    if e.RunNext? {
      var d :| Runs(s, t, d);
    }
    assert |t.log| == |s.log|;
    assert Pending(t) == Pending(s);
  }

  lemma {:induction false} RunTracked(s: State, es: seq<Event>, last: Outcome<State>)
    requires Inv(s) && Plain(s) && Tracked(s) && Run(s, es, last)
    ensures last.Ok? && Inv(last.s) && Plain(last.s) && Tracked(last.s)
    decreases |es|
  {
    if es != [] {
      StepGood(s, es[0]);
      StepDoes(s, es[0]);
      StepTracked(s, es[0]);
      RunTracked(Step(s, es[0]).s, es[1..], last);
    }
  }

  lemma InitialTracked(s: State)
    requires Initial(s)
    ensures Plain(s) && Tracked(s)
  {
    StartLogAsked(s.clients, s.order);
    StartLogRequests(s.clients, s.order);
  }

  lemma {:induction false} StartLogAsked(clients: map<nat, Client>, order: seq<nat>)
    requires forall id :: id in order ==> id in clients
    ensures forall id :: Asked(StartLog(clients, order), id) <==> id in order && clients[id].flagged
  {
    if order != [] {
      var last, rest := order[|order| - 1], order[..|order| - 1];
      StartLogAsked(clients, rest);
      var log := StartLog(clients, rest);
      forall id ensures Asked(StartLog(clients, order), id) <==> id in order && clients[id].flagged {
        if clients[last].flagged {
          AskedAppend(log, Requested(last, clients[last].req), id);
        } else {
          assert StartLog(clients, order) == log;
        }
      }
    }
  }

  /** No request is lost. In every run, a client has a request pending exactly if it has asked
      since it was last told to run, for the time it asked for last. Whenever the controller is
      ready, those clients, and no others, are on the job list, each at that time. */
  lemma RunLosesNoRequest(s: State, es: seq<Event>, last: Outcome<State>)
    requires Initial(s) && Run(s, es, last)
    ensures last.Ok? && Tracked(last.s)
    ensures last.s.phase == Ready ==>
              forall id :: id in last.s.clients ==>
                && (Asked(last.s.log, id) ==> LastRequest(last.s.log, id).Some? && ScheduledAt(last.s, id, LastRequest(last.s.log, id).value))
                && (forall j :: j in last.s.jobs && j.id == id ==> Asked(last.s.log, id) && LastRequest(last.s.log, id) == Some(j.start))
  {
    InitialInv(s);
    InitialTracked(s);
    RunTracked(s, es, last);
    var t := last.s;
    if t.phase == Ready {
      forall id | id in t.clients
        ensures Asked(t.log, id) ==> LastRequest(t.log, id).Some? && ScheduledAt(t, id, LastRequest(t.log, id).value)
        ensures forall j :: j in t.jobs && j.id == id ==> Asked(t.log, id) && LastRequest(t.log, id) == Some(j.start)
      {
        if t.clients[id].flagged {
          assert RequestKept(t, id, t.clients[id].req);
          assert id in Pending(t);
        }
      }
    }
  }
}
