/** Scheduling requests of a participant in a multi-process simulation: while it runs they
    are postponed and merged into its next wait, and while it waits repeats are suppressed
    (src/multi-ptc.c, src/sched.c). The controller holds the wake time it would hold if
    every request were sent at once. */
module Postponed {
  import opened Wrappers
  import opened CyclicTime
  import JobList

  /** The participant: `running` is the continue flag, `pending`, `time` and `valid` are the
      postponed request, `waiting`, `prev` and `prevSet` belong to its scheduler. `wake` is
      the participant's job at the controller, if it is queued there, and `sent` is every
      request that has gone out. */
  datatype State = State(
    running: bool, pending: bool, time: Time, valid: bool, waiting: bool, prev: Time, prevSet: bool,
    wake: Option<Time>, sent: seq<Time>)

  /** multi_rpc_sched_request: the job moves to the requested time. */
  function Send(s: State, at: Time): State { s.(wake := Some(at), sent := s.sent + [at]) }

  /** usfstl_multi_sched_ext_req. */
  function ParticipantRequest(s: State, at: Time): State {
    var t := if s.running then s.(pending := true) else if !s.valid || s.time != at then Send(s, at) else s;
    t.(time := at, valid := true)
  }

  /** usfstl_sched_external_request, when the request is not skipped because of a bound. */
  function Request(s: State, at: Time): State {
    if s.waiting && s.prevSet && at == s.prev then s
    else ParticipantRequest(s.(prev := at, prevSet := true), at)
  }

  /** usfstl_sched_external_wait up to the point where messages are handled. */
  function Wait(s: State): State {
    var t := s.(prevSet := false, waiting := true, running := false);
    (if t.pending then Send(t, t.time) else t).(pending := false, valid := false)
  }

  /** The controller reaches the participant's job and lets it run. */
  function Continue(s: State): State { s.(wake := None, running := true, waiting := false) }

  datatype Event = Requests(at: Time) | Waits | Continues

  /** A participant waits only while it runs, and is continued only while it waits. */
  predicate Allowed(s: State, e: Event) {
    match e
    case Requests(_) => true
    case Waits => !s.waiting
    case Continues => s.waiting && s.wake.Some?
  }

  function Step(s: State, e: Event): State {
    match e
    case Requests(at) => Request(s, at)
    case Waits => Wait(s)
    case Continues => Continue(s)
  }

  /** What the controller would hold if every request were sent at once. */
  function StepAtOnce(wake: Option<Time>, e: Event): Option<Time> {
    match e
    case Requests(at) => Some(at)
    case Waits => wake
    case Continues => None
  }

  predicate Legal(s: State, trace: seq<Event>)
    decreases |trace|
  {
    trace == [] || (Allowed(s, trace[0]) && Legal(Step(s, trace[0]), trace[1..]))
  }

  function Run(s: State, trace: seq<Event>): State
    decreases |trace|
  {
    if trace == [] then s else Run(Step(s, trace[0]), trace[1..])
  }

  function RunAtOnce(wake: Option<Time>, trace: seq<Event>): Option<Time>
    decreases |trace|
  {
    if trace == [] then wake else RunAtOnce(StepAtOnce(wake, trace[0]), trace[1..])
  }

  /** While the participant runs, its last request is either at the controller or pending;
      while it waits, it is at the controller. */
  predicate Refines(s: State, wake: Option<Time>) {
    && (s.running ==> !s.waiting)
    && (if s.running && s.pending then wake == Some(s.time) else s.wake == wake && !s.pending)
    && (!s.running && s.valid ==> s.wake == Some(s.time))
    && (s.waiting && s.prevSet ==> s.wake == Some(s.prev))
  }

  lemma StepRefines(s: State, wake: Option<Time>, e: Event)
    requires Refines(s, wake) && Allowed(s, e)
    ensures Refines(Step(s, e), StepAtOnce(wake, e))
  {
  }

  lemma {:induction false} RunRefines(s: State, wake: Option<Time>, trace: seq<Event>)
    requires Refines(s, wake) && Legal(s, trace)
    ensures Refines(Run(s, trace), RunAtOnce(wake, trace))
    decreases |trace|
  {
    if trace != [] {
      StepRefines(s, wake, trace[0]);
      RunRefines(Step(s, trace[0]), StepAtOnce(wake, trace[0]), trace[1..]);
    }
  }

  lemma {:induction false} RunConcat(s: State, wake: Option<Time>, a: seq<Event>, b: seq<Event>)
    ensures Run(s, a + b) == Run(Run(s, a), b) && RunAtOnce(wake, a + b) == RunAtOnce(RunAtOnce(wake, a), b)
    ensures Legal(s, a + b) ==> Legal(s, a) && Legal(Run(s, a), b)
    decreases |a|
  {
    if a == [] {
      assert a + b == b;
    } else {
      RunConcat(Step(s, a[0]), StepAtOnce(wake, a[0]), a[1..], b);
      assert (a + b)[0] == a[0] && (a + b)[1..] == a[1..] + b;
    }
  }

  const START := State(false, false, 0, false, false, 0, false, None, [])

  /** In every run, whenever the participant is not running, in particular after every wait
      and all the time until it is continued, the controller holds the wake time that it
      would hold had every request been sent at once. */
  lemma WakeTimeIsExact(trace: seq<Event>, more: seq<Event>)
    requires Legal(START, trace + more)
    ensures !Run(START, trace).running ==> Run(START, trace).wake == RunAtOnce(None, trace)
    ensures trace != [] && trace[|trace| - 1].Waits? ==> !Run(START, trace).running
  {
    RunConcat(START, None, trace, more);
    RunRefines(START, None, trace);
    if trace != [] && trace[|trace| - 1].Waits? {
      var init := trace[..|trace| - 1];
      assert trace == init + [Waits];
      RunConcat(START, None, init, [Waits]);
      assert [Waits][1..] == [];
      assert Run(Run(START, init), [Waits]) == Run(Step(Run(START, init), Waits), []);
    }
  }

  /** During a turn nothing is sent; the last request of the turn is the pending one. */
  lemma {:induction false} TurnPostpones(s: State, requests: seq<Event>)
    requires s.running && !s.waiting && forall e :: e in requests ==> e.Requests?
    ensures var t := Run(s, requests);
            t.running && !t.waiting && t.wake == s.wake && t.sent == s.sent && (requests != [] ==> t.pending && t.time == requests[|requests| - 1].at)
    decreases |requests|
  {
    if requests != [] {
      TurnPostpones(Step(s, requests[0]), requests[1..]);
    }
  }

  /** A whole turn sends one message for all its requests, at the wait that ends it, with the
      time of the last one; a turn without a request sends none. */
  lemma TurnSendsOnce(s: State, requests: seq<Event>)
    requires s.running && !s.waiting && !s.pending && forall e :: e in requests ==> e.Requests?
    ensures Step(Run(s, requests), Waits).sent ==
            s.sent + (if requests == [] then [] else [requests[|requests| - 1].at])
  {
    TurnPostpones(s, requests);
  }

  /** The times among `requests` that differ from the one before them. */
  ghost function Changes(last: Option<Time>, requests: seq<Event>): seq<Time>
    requires forall e :: e in requests ==> e.Requests?
    decreases |requests|
  {
    if requests == [] then []
    else (if last == Some(requests[0].at) then [] else [requests[0].at]) + Changes(Some(requests[0].at), requests[1..])
  }

  /** Since its wait the participant has requested nothing, or `last` most recently. */
  predicate WaitsSince(s: State, last: Option<Time>) {
    && s.waiting && !s.running && s.valid == s.prevSet == last.Some?
    && (last.Some? ==> s.time == last.value && s.prev == last.value)
  }

  /** While it waits, the participant sends exactly the requests for another time than the
      one before. */
  lemma {:induction false} WaitingSendsChanges(s: State, last: Option<Time>, requests: seq<Event>)
    requires WaitsSince(s, last) && forall e :: e in requests ==> e.Requests?
    ensures Run(s, requests).sent == s.sent + Changes(last, requests)
    decreases |requests|
  {
    if requests != [] {
      WaitingSendsChanges(Step(s, requests[0]), Some(requests[0].at), requests[1..]);
    }
  }

  lemma {:induction false} DeleteAt(l: seq<JobList.Job>, i: nat)
    requires i < |l| && forall k :: 0 <= k < |l| && k != i ==> l[k].id != l[i].id
    ensures JobList.Delete(l, l[i].id) == l[..i] + l[i + 1..]
  {
    var rest := l[1..];
    if i == 0 {
      DeleteNone(rest, l[0].id);
    } else {
      DeleteAt(rest, i - 1);
      Prepended(l, i);
    }
  }

  lemma Prepended(l: seq<JobList.Job>, i: nat)
    requires 0 < i < |l|
    ensures [l[0]] + (l[1..][..i - 1] + l[1..][i..]) == l[..i] + l[i + 1..]
  {
  }

  lemma {:induction false} DeleteNone(l: seq<JobList.Job>, id: nat)
    requires forall k :: 0 <= k < |l| ==> l[k].id != id
    ensures JobList.Delete(l, id) == l
  {
    if l != [] {
      assert forall k :: 0 <= k < |l[1..]| ==> l[1..][k] == l[k + 1];
      DeleteNone(l[1..], id);
    }
  }

  /** Only the wake time is the same, not always the place in the controller's list: sending
      the request again leaves the list as it is exactly if the next job is not due at the
      same time with the same priority; otherwise the participant's job moves behind it. */
  lemma RepeatKeepsPlaceIff(now: Time, l: seq<JobList.Job>, i: nat)
    requires JobList.Sorted(now, l) && JobList.Ahead(now, l) && i < |l|
    requires forall k :: 0 <= k < |l| && k != i ==> l[k].id != l[i].id
    ensures JobList.Insert(JobList.Delete(l, l[i].id), l[i]) == l <==>
            (i + 1 < |l| ==> l[i + 1].start != l[i].start || l[i + 1].priority != l[i].priority)
  {
    var p, d := l[i], l[..i] + l[i + 1..];
    DeleteAt(l, i);
    forall k | 0 <= k < |l| && k != i
      ensures k < i ==> !JobList.Stops(l[k], p)
      ensures k > i ==> (!JobList.Stops(l[k], p) <==> l[k].start == p.start && l[k].priority == p.priority)
    {
      WindowOrder(now, l[k].start, p.start);
      WindowOrder(now, p.start, l[k].start);
      assert if k < i then JobList.Before(now, l[k], p) else JobList.Before(now, p, l[k]);
    }
    PlaceAfterDelete(l, d, i);
  }

  lemma PlaceAfterDelete(l: seq<JobList.Job>, d: seq<JobList.Job>, i: nat)
    requires i < |l| && d == l[..i] + l[i + 1..] && forall k :: 0 <= k < i ==> !JobList.Stops(l[k], l[i])
    requires i + 1 < |l| ==> l[i + 1].id != l[i].id
    ensures JobList.Insert(d, l[i]) == l <==> (i + 1 < |l| ==> JobList.Stops(l[i + 1], l[i]))
  {
    var q := JobList.Position(d, l[i]);
    assert forall k :: 0 <= k < i ==> d[k] == l[k];
    assert i + 1 < |l| ==> d[i] == l[i + 1];
    if i + 1 < |l| ==> JobList.Stops(l[i + 1], l[i]) {
      JobList.PositionUnique(d, l[i], i);
      assert l == l[..i] + [l[i]] + l[i + 1..];
    } else {
      assert q > i && JobList.Insert(d, l[i])[i] == d[i];
    }
  }

  /** The participant with the fields of src/multi-ptc.c, updated in place. */
  class Participant {
    var running: bool
    var pending: bool
    var time: Time
    var valid: bool
    var waiting: bool
    var prev: Time
    var prevSet: bool
    var wake: Option<Time>
    var sent: seq<Time>

    constructor ()
      ensures View() == START
    {
      running, pending, time, valid, waiting, prev, prevSet, wake, sent := false, false, 0, false, false, 0, false, None, [];
    }

    ghost function View(): State
      reads this
    {
      State(running, pending, time, valid, waiting, prev, prevSet, wake, sent)
    }

    method SendRequest(at: Time)
      modifies `wake, `sent
      ensures View() == Send(old(View()), at)
    {
      wake, sent := Some(at), sent + [at];
    }

    /** `held` is what the controller would hold if every request were sent at once. */
    method ExternalRequest(at: Time, ghost held: Option<Time>)
      requires Refines(View(), held)
      modifies this
      ensures View() == Request(old(View()), at) && Refines(View(), Some(at))
    {
      StepRefines(View(), held, Requests(at));
      if waiting && prevSet && at == prev {
        return;
      }
      prev, prevSet := at, true;
      if running {
        pending := true;
      } else if !valid || time != at {
        SendRequest(at);
      }
      time, valid := at, true;
    }

    method ExternalWait(ghost held: Option<Time>)
      requires !waiting && Refines(View(), held)
      modifies this
      ensures View() == Wait(old(View())) && Refines(View(), held) && wake == held
    {
      StepRefines(View(), held, Waits);
      prevSet, waiting, running := false, true, false;
      if pending {
        pending := false;
        SendRequest(time);
      }
      valid := false;
    }

    /** The participant is continued at the wake time, and holds no request any more. */
    method ScheduledContinue(ghost held: Option<Time>)
      requires waiting && wake.Some? && Refines(View(), held)
      modifies this
      ensures View() == Continue(old(View())) && Refines(View(), None) && old(wake) == held
    {
      StepRefines(View(), held, Continues);
      wake := None;
      running, waiting := true, false;
    }
  }
}
