/** The time-travel protocol between the controller (control/main.c) and its clients
    (src/schedctrl.c) over the shared memory of include/linux/um_timetravel.h, as a state
    machine. Times are in the controller's domain. The set of clients is fixed, as it is
    once `started_scheduling` is set. */
module TimeTravel {
  import opened Wrappers
  import opened CyclicTime
  import opened JobList

  /** `shm` is the capability TIME_SHARE, `flagged` the flag REQ_RUN, `req` the field
      req_time, `sync` the last FREE_UNTIL sent to a client without shared memory. */
  datatype Client = Client(shm: bool, flagged: bool, req: Time, sync: Option<Time>)

  /** What the controller does: `Ready` in the main loop, `Callback` in a job of its own,
      `Granted` after RUN to a shared-memory client that has not woken up yet, `Turn`
      while a client runs, `Transferring` after a turn. */
  datatype Phase = Ready | Callback | Granted | Turn | Transferring

  /** History: requests that were not answered "can run", RUN messages and WAIT messages. */
  datatype Entry =
    | Requested(id: nat, time: Time)
    | Ran(id: nat, time: Time, elapsed: int)
    | Waited(id: nat)

  /** `now`, `free`, `running` and `clients` are the shared memory; `running` is 0 for the
      controller. `seen` is the latest time the running client has reached on its own,
      `elapsed` the unwrapped sum of all clock movements. */
  datatype State = State(
    now: Time, free: Time, running: nat, clients: map<nat, Client>, order: seq<nat>,
    jobs: seq<Job>, stamps: nat, phase: Phase, seen: Time, elapsed: int, log: seq<Entry>)

  /** _schedshm_client_has_shm; the controller's own entry never has the capability. */
  predicate HasShm(s: State, id: nat) { id in s.clients && s.clients[id].shm }

  /** usfstl_sched_get_sync_time of the controller's scheduler. */
  function SyncTime(now: Time, jobs: seq<Job>): Time {
    var far := Wrap(now + TWO62);
    if jobs != [] && Lt(jobs[0].start, far) then jobs[0].start else far
  }

  /** update_sync(NULL): publish the bound, and send it to a running message client. */
  function UpdateSync(s: State): State {
    var f := SyncTime(s.now, s.jobs);
    var t := s.(free := f);
    if s.running in s.clients && !s.clients[s.running].shm
    then t.(clients := s.clients[s.running := s.clients[s.running].(sync := Some(f))])
    else t
  }

  /** usfstl_sched_add_job on the controller's scheduler, which calls next_time_changed. */
  function AddJob(s: State, id: nat, t: Time, priority: nat): State {
    UpdateSync(s.(jobs := Insert(s.jobs, Job(id, t, priority, 1, s.stamps)), stamps := s.stamps + 1))
  }

  function Reschedule(s: State, id: nat, t: Time): State {
    AddJob(s.(jobs := Delete(s.jobs, id)), id, t, 0)
  }

  /** Store a request in shared memory. */
  function Store(s: State, id: nat, t: Time): State
    requires id in s.clients
  {
    s.(clients := s.clients[id := s.clients[id].(flagged := true, req := t)],
       log := s.log + [Requested(id, t)])
  }

  function LowerFree(s: State, t: Time): State { if Lt(t, s.free) then s.(free := t) else s }

  /** _handle_message, REQUEST. */
  function HandleRequest(s: State, id: nat, t: Time): Outcome<State>
    requires id in s.clients
  {
    if HasShm(s, s.running) then Ok(LowerFree(Store(s, id, t), t))
    else if !Ge(t, s.now) then Aborted
    else Ok(Reschedule(Store(s, id, t), id, t))
  }

  /** The answer of _schedctrl_request_shm: the client may go on without asking. */
  predicate CanRun(s: State, id: nat, t: Time) {
    HasShm(s, s.running) && id == s.running && s.phase == Turn && Lt(t, s.free)
  }

  /** _schedctrl_request_shm of client `id`. */
  function RequestShm(s: State, id: nat, t: Time): Outcome<State>
    requires id in s.clients
  {
    if !HasShm(s, s.running) then HandleRequest(s, id, t)
    else if !Ge(t, s.now) then Aborted
    else if CanRun(s, id, t) then Ok(s)
    else Ok(LowerFree(Store(s, id, t), t))
  }

  function MoveClock(s: State, t: Time): State {
    s.(now := t, seen := t, elapsed := s.elapsed + Signed(t - s.now))
  }

  /** usfstl_sched_forward of a shared-memory client: request, then _schedctrl_set_time. */
  function ShmForward(s: State, t: Time): Outcome<State>
    requires s.running in s.clients
  {
    if !CanRun(s, s.running, t) then RequestShm(s, s.running, t)
    else if !Ge(t, s.now) || !Le(t, s.free) then Aborted
    else Ok(MoveClock(s, t))
  }

  /** usfstl_sched_next: move to the first job and run it, for a client by run_client. */
  function Next(s: State): State
    requires s.jobs != []
  {
    var job := s.jobs[0];
    var t := MoveClock(s, if Gt(job.start, s.now) then job.start else s.now).(jobs := s.jobs[1..]);
    if job.id !in s.clients then t.(phase := Callback)
    else
      var u := UpdateSync(t.(running := job.id, log := s.log + [Ran(job.id, t.now, t.elapsed)]));
      if HasShm(s, job.id) then u.(phase := Granted)
      else u.(phase := Turn, clients := u.clients[job.id := u.clients[job.id].(flagged := false)])
  }

  /** A message client goes on by itself below its FREE_UNTIL bound, otherwise it asks. */
  function LocalForward(s: State, t: Time): Outcome<State>
    requires s.running in s.clients
  {
    var sync := s.clients[s.running].sync;
    if sync.Some? && Lt(t, sync.value) then Ok(s.(seen := t)) else HandleRequest(s, s.running, t)
  }

  /** _handle_message, UPDATE. */
  function Update(s: State): Outcome<State> {
    if s.jobs != [] && !Le(s.seen, s.jobs[0].start) then Aborted else Ok(MoveClock(s, s.seen))
  }

  /** _schedshm_client_req_time. */
  function TransferOne(s: State, id: nat): State
    requires id in s.clients
  {
    var c := s.clients[id];
    if !c.flagged || (exists j :: j in s.jobs && j.id == id && j.start == c.req) then s
    else Reschedule(s, id, c.req)
  }

  function Transfer(s: State, ids: seq<nat>): State
    requires forall id :: id in ids ==> id in s.clients
    decreases |ids|
  {
    if ids == [] then s
    else
      var t := TransferOne(s, ids[0]);
      Transfer(t, ids[1..])
  }

  datatype Event =
    | RunNext
    | Wake
    | Forward(t: Time)
    | Request(id: nat, t: Time)
    | Message(id: nat, t: Time)
    | Local(t: Time)
    | SendUpdate
    | Wait
    | Add(id: nat, t: Time, priority: nat)
    | Cancel(id: nat)
    | EndCallback
    | TransferAll

  ghost predicate Known(s: State) {
    && (s.running != 0 ==> s.running in s.clients)
    && (forall id :: id in s.order ==> id in s.clients)
  }

  ghost function Step(s: State, e: Event): Outcome<State>
    requires Known(s) && Allowed(s, e)
  {
    match e
    case RunNext => Ok(Next(s))
    case Wake =>
      Ok(s.(phase := Turn, clients := s.clients[s.running := s.clients[s.running].(flagged := false)]))
    case Forward(t) => ShmForward(s, t)
    case Request(id, t) => RequestShm(s, id, t)
    case Message(id, t) => HandleRequest(s, id, t)
    case Local(t) => LocalForward(s, t)
    case SendUpdate => Update(s)
    case Wait => Ok(s.(phase := Transferring, running := 0, log := s.log + [Waited(s.running)]))
    case Add(id, t, priority) => if Ge(t, s.now) then Ok(AddJob(s, id, t, priority)) else Aborted
    case Cancel(id) => Ok(s.(jobs := Delete(s.jobs, id)))
    case EndCallback => Ok(s.(phase := Transferring))
    case TransferAll => Ok(Transfer(s, s.order).(phase := Ready))
  }

  /** A shared-memory client holds the run token. */
  predicate ShmTurn(s: State) { s.phase in {Granted, Turn} && HasShm(s, s.running) }

  predicate MessageTurn(s: State) { s.phase == Turn && s.running in s.clients && !s.clients[s.running].shm }

  /** What the code relies on: a client acts only when it can, asks only for times at or
      after the current one, sends UPDATE before it makes another party act, and a job of
      the controller added during a shared-memory turn is due at once. */
  ghost predicate Allowed(s: State, e: Event) {
    match e
    case RunNext => s.phase == Ready && s.jobs != []
    case Wake => s.phase == Granted && s.running != 0
    case Forward(t) => s.phase == Turn && HasShm(s, s.running) && Le(s.now, t)
    case Request(id, t) => HasShm(s, id) && MayAsk(s, id, t)
    case Message(id, t) => id in s.clients && MayAsk(s, id, t)
    case Local(t) => MessageTurn(s) && Le(s.now, t) && Dist(s.now, s.seen) <= Dist(s.now, t)
    case SendUpdate => MessageTurn(s)
    case Wait => s.phase == Turn && s.running != 0
    case Add(id, t, priority) =>
      && id !in s.clients && !Scheduled(s.jobs, id) && Le(s.now, t)
      && s.phase in {Callback, Granted, Turn}
      && (if ShmTurn(s) then t == s.now else s.seen == s.now)
    case Cancel(id) => id !in s.clients && s.phase in {Callback, Granted, Turn}
    case EndCallback => s.phase == Callback
    case TransferAll => s.phase == Transferring
  }

  ghost predicate MayAsk(s: State, id: nat, t: Time) {
    && s.phase in {Callback, Granted, Turn}
    && !(s.phase == Granted && id == s.running)
    && Le(s.now, t)
    && (if id == s.running then Dist(s.now, s.seen) <= Dist(s.now, t) else s.seen == s.now)
  }

  // ------------------------------------------------------------ invariant

  ghost predicate Unique(jobs: seq<Job>) {
    forall x, y :: x in jobs && y in jobs && x.id == y.id ==> x == y
  }

  /** `t` is not before `bound`, both seen from `now`. */
  predicate NotBefore(now: Time, bound: Time, t: Time) { Le(now, t) && Dist(now, bound) <= Dist(now, t) }

  ghost predicate AllNotBefore(now: Time, bound: Time, jobs: seq<Job>) {
    forall j :: j in jobs ==> NotBefore(now, bound, j.start)
  }

  ghost predicate Queue(s: State) {
    && Sorted(s.now, s.jobs) && Ahead(s.now, s.jobs) && Unique(s.jobs)
    && (forall j :: j in s.jobs ==> j.stamp < s.stamps)
  }

  ghost predicate Roles(s: State) {
    && Known(s) && 0 !in s.clients
    && (forall id :: id in s.clients <==> id in s.order)
    && (s.running == 0 <==> s.phase in {Ready, Callback, Transferring})
    && (s.phase == Granted ==> HasShm(s, s.running))
  }

  /** No pending job lies before the latest time any client has reached. */
  ghost predicate Horizon(s: State) {
    && Le(s.now, s.seen)
    && AllNotBefore(s.now, s.seen, s.jobs)
    && (s.phase == Callback || ShmTurn(s) ==> s.seen == s.now)
  }

  /** The bound the running client works with. */
  ghost predicate Bound(s: State) {
    && (ShmTurn(s) || MessageTurn(s) ==>
          && NotBefore(s.now, s.seen, s.free) && Dist(s.now, s.free) <= TWO62
          && AllNotBefore(s.now, s.free, s.jobs))
    && (MessageTurn(s) ==> s.clients[s.running].sync == Some(s.free))
  }

  ghost predicate ScheduledAt(s: State, id: nat, t: Time) {
    exists j :: j in s.jobs && j.id == id && j.start == t
  }

  /** Where the requests of the clients are kept, per phase. */
  ghost predicate Requests(s: State) {
    && (forall j :: j in s.jobs && j.id in s.clients ==> s.clients[j.id].flagged)
    && (forall id :: id in s.clients && s.clients[id].flagged ==> RequestKept(s, id, s.clients[id].req))
    && (ShmTurn(s) ==> forall j :: j in s.jobs ==> j.id != s.running)
  }

  ghost predicate RequestKept(s: State, id: nat, t: Time) {
    && (!(s.phase == Granted && id == s.running) ==> LastRequest(s.log, id) == Some(t))
    && if ShmTurn(s) then
         !(s.phase == Granted && id == s.running) ==> NotBefore(s.now, s.free, t)
       else if s.phase == Transferring then NotBefore(s.now, s.seen, t)
       else ScheduledAt(s, id, t) && forall j :: j in s.jobs && j.id == id ==> j.start == t
  }

  /** The most recent request of a client that was not answered "can run". */
  function LastRequest(log: seq<Entry>, id: nat): Option<Time> {
    if log == [] then None
    else
      var last := log[|log| - 1];
      if last.Requested? && last.id == id then Some(last.time) else LastRequest(log[..|log| - 1], id)
  }

  /** Every RUN so far was at the client's most recent request, in order of time. */
  ghost predicate Grants(s: State) {
    && Wrap(s.elapsed) == s.now
    && (forall i :: 0 <= i < |s.log| && s.log[i].Ran? ==>
          && LastRequest(s.log[..i], s.log[i].id) == Some(s.log[i].time)
          && Wrap(s.log[i].elapsed) == s.log[i].time
          && s.log[i].elapsed <= s.elapsed)
    && (forall i, j :: 0 <= i < j < |s.log| && s.log[i].Ran? && s.log[j].Ran? ==>
          s.log[i].elapsed <= s.log[j].elapsed)
  }

  /** The client that has been told to run and has not waited since; 0 when there is none. */
  function Holder(log: seq<Entry>): nat {
    if log == [] then 0
    else match log[|log| - 1]
      case Ran(id, _, _) => id
      case Waited(_) => 0
      case Requested(_, _) => Holder(log[..|log| - 1])
  }

  /** RUN is only ever sent while no client holds the run token. */
  ghost predicate Token(s: State) {
    && Holder(s.log) == s.running
    && forall i :: 0 <= i < |s.log| && s.log[i].Ran? ==> Holder(s.log[..i]) == 0
  }

  ghost predicate Inv(s: State) {
    Queue(s) && Roles(s) && Horizon(s) && Bound(s) && Requests(s) && Grants(s) && Token(s)
  }
}
