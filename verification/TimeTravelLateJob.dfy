/** A run of the time-travel protocol after which a late job of the controller lets a client
    pass another client's request: the failing side of `TimeTravelSafety.LateJobSafeIff`. */
module TimeTravelLateJob {
  import opened Wrappers
  import opened CyclicTime
  import opened JobList
  import opened TimeTravel
  import opened TimeTravelSafety

  function Clients(a: nat, first: bool, b: nat, second: Client): map<nat, Client> {
    map[a := Client(true, first, 0, None), b := second]
  }

  /** Two clients; 0 is the controller. */
  predicate Two(a: nat, b: nat) { 0 < a && 0 < b && a != b }

  const QUIET := Client(true, false, 0, None)
  const ASKING := Client(true, true, 10, None)

  /** Scheduling starts with a request of client `a` for time 0; client `b` has made none. */
  function Beginning(a: nat, b: nat): State {
    State(0, 0, 0, Clients(a, true, b, QUIET), [a, b], [], 0, Transferring, 0, 0, [Requested(a, 0)])
  }

  /** Client `a` is queued. */
  function Queued(a: nat, b: nat): State {
    State(0, 0, 0, Clients(a, true, b, QUIET), [a, b], [Job(a, 0, 0, 1, 0)], 1, Ready, 0, 0, [Requested(a, 0)])
  }

  /** Client `a` is told to run at time 0. */
  function Told(a: nat, b: nat): State {
    State(0, TWO62, a, Clients(a, true, b, QUIET), [a, b], [], 1, Granted, 0, 0, [Requested(a, 0), Ran(a, 0, 0)])
  }

  function Awake(a: nat, b: nat): State {
    State(0, TWO62, a, Clients(a, false, b, QUIET), [a, b], [], 1, Turn, 0, 0, [Requested(a, 0), Ran(a, 0, 0)])
  }

  /** Client `a` runs at time 0; client `b` has since asked for time 10 through shared memory. */
  function TwoClients(a: nat, b: nat): State {
    State(0, 10, a, Clients(a, false, b, ASKING), [a, b], [], 1, Turn, 0, 0, [Requested(a, 0), Ran(a, 0, 0), Requested(b, 10)])
  }

  /** The controller has then added a job of its own at time 50. */
  function LateJob(a: nat, b: nat, own: nat): State {
    State(0, 50, a, Clients(a, false, b, ASKING), [a, b], [Job(own, 50, 0, 1, 1)], 2, Turn, 0, 0,
          [Requested(a, 0), Ran(a, 0, 0), Requested(b, 10)])
  }

  lemma BeginningStarts(a: nat, b: nat)
    requires Two(a, b)
    ensures Initial(Beginning(a, b))
  {
    var c := Beginning(a, b).clients;
    assert [a, b][..1] == [a] && [a][..0] == [];
    assert StartLog(c, [a]) == StartLog(c, []) + [Requested(a, 0)];
    assert StartLog(c, [a, b]) == StartLog(c, [a]) + [];
  }

  /** The first request is queued on the empty list, and becomes the bound. */
  lemma TransferFirst(s: State, id: nat)
    requires id in s.clients && s.clients[id].flagged && s.jobs == [] && s.running !in s.clients
    requires Lt(s.clients[id].req, Wrap(s.now + TWO62))
    ensures TransferOne(s, id) ==
            s.(jobs := [Job(id, s.clients[id].req, 0, 1, s.stamps)], stamps := s.stamps + 1, free := s.clients[id].req)
  {
  }

  lemma QueuedNext(a: nat, b: nat)
    requires Two(a, b)
    ensures Step(Beginning(a, b), TransferAll) == Ok(Queued(a, b))
  {
    var s := Beginning(a, b);
    TransferFirst(s, a);
    var t := TransferOne(s, a);
    assert [a, b][1..] == [b] && [b][1..] == [];
    assert Transfer(s, [a, b]) == Transfer(t, [b]) == Transfer(TransferOne(t, b), []) == t;
  }

  /** A shared-memory client whose job is the only one, and due now, is told to run. */
  lemma NextOnlyJob(s: State, id: nat)
    requires HasShm(s, id) && |s.jobs| == 1 && s.jobs[0].id == id && s.jobs[0].start == s.now == s.seen
    ensures Next(s) == s.(jobs := [], running := id, log := s.log + [Ran(id, s.now, s.elapsed)],
                          free := Wrap(s.now + TWO62), phase := Granted)
  {
    assert s.jobs[1..] == [];
  }

  lemma ToldNext(a: nat, b: nat)
    requires Two(a, b)
    ensures Next(Queued(a, b)) == Told(a, b)
  {
    NextOnlyJob(Queued(a, b), a);
    assert Queued(a, b).log + [Ran(a, 0, 0)] == Told(a, b).log;
  }

  lemma AwakeNext(a: nat, b: nat)
    requires Two(a, b)
    ensures Step(Told(a, b), Wake) == Ok(Awake(a, b))
  {
    var c := Told(a, b).clients;
    assert c[a := c[a].(flagged := false)] == Awake(a, b).clients;
  }

  lemma TwoClientsNext(a: nat, b: nat)
    requires Two(a, b)
    ensures RequestShm(Awake(a, b), b, 10) == Ok(TwoClients(a, b))
  {
    var s := Awake(a, b);
    assert s.clients[b := ASKING] == TwoClients(a, b).clients;
    assert s.log + [Requested(b, 10)] == TwoClients(a, b).log;
    assert Store(s, b, 10) == TwoClients(a, b).(free := TWO62);
  }

  lemma RunStep(s: State, e: Event, t: State, rest: seq<Event>, last: Outcome<State>)
    requires Known(s) && Allowed(s, e) && Step(s, e) == Ok(t) && Run(t, rest, last)
    ensures Run(s, [e] + rest, last)
  {
    assert ([e] + rest)[1..] == rest;
  }

  /** The protocol reaches `TwoClients` from an initial state. */
  lemma TwoClientsReached(a: nat, b: nat)
    requires Two(a, b)
    ensures Initial(Beginning(a, b))
    ensures Run(Beginning(a, b), [TransferAll] + ([RunNext] + ([Wake] + ([Request(b, 10)] + []))), Ok(TwoClients(a, b)))
  {
    BeginningStarts(a, b);
    var last := Ok(TwoClients(a, b));
    TwoClientsNext(a, b);
    RunStep(Awake(a, b), Request(b, 10), TwoClients(a, b), [], last);
    AwakeNext(a, b);
    RunStep(Told(a, b), Wake, Awake(a, b), [Request(b, 10)] + [], last);
    ToldNext(a, b);
    RunStep(Queued(a, b), RunNext, Told(a, b), [Wake] + ([Request(b, 10)] + []), last);
    QueuedNext(a, b);
    RunStep(Beginning(a, b), TransferAll, Queued(a, b), [RunNext] + ([Wake] + ([Request(b, 10)] + [])), last);
  }

  lemma LateJobNext(a: nat, b: nat, own: nat)
    requires Two(a, b)
    ensures AddJob(TwoClients(a, b), own, 50, 0) == LateJob(a, b, own)
  {
    assert Insert([], Job(own, 50, 0, 1, 1)) == [Job(own, 50, 0, 1, 1)];
  }

  /** In a state that the protocol reaches, the controller adds a job at 50 while client `a`
      runs, and client `a` may then move the clock to 40, past the request of client `b` for 10. */
  lemma LateJobOverrunsRequest(a: nat, b: nat, own: nat)
    requires Two(a, b) && own != a && own != b
    ensures exists es :: Run(Beginning(a, b), es, Ok(TwoClients(a, b)))
    ensures AddJob(TwoClients(a, b), own, 50, 0) == LateJob(a, b, own) && ShmTurn(LateJob(a, b, own))
    ensures ShmForward(LateJob(a, b, own), 40).Ok? && ShmForward(LateJob(a, b, own), 40).s.now == 40
    ensures LateJob(a, b, own).clients[b].flagged && Lt(LateJob(a, b, own).clients[b].req, 40)
  {
    TwoClientsReached(a, b);
    LateJobNext(a, b, own);
  }
}
