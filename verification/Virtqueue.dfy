/** Service of a split virtqueue by a device (src/vhost.c), as in sections 2.6.5, 2.6.6 and
    2.6.8 of VIRTIO 1.1: heads are taken from the available ring and returned through the
    used ring, with 16-bit running indices. */
module Virtqueue {
  import opened Division
  import opened Wrappers

  const WRAP: nat := 0x1_0000

  datatype Used = Used(id: nat, len: nat)

  /** `avail` and `availIdx` are written by the driver, `used` and `usedIdx` by the device;
      `last` is last_avail_idx. The rest is history: all heads made available, how many of
      them were taken, what was returned, and which of the heads it was returned for. */
  datatype Queue = Queue(
    num: nat, avail: seq<nat>, availIdx: nat, last: nat, used: seq<Used>, usedIdx: nat,
    heads: seq<nat>, taken: nat, answers: seq<Used>, positions: seq<nat>)

  /** The driver makes a head available. */
  function Publish(q: Queue, head: nat): Queue
    requires 0 < q.num == |q.avail|
  {
    q.(avail := q.avail[q.availIdx % q.num := head], availIdx := (q.availIdx + 1) % WRAP, heads := q.heads + [head])
  }

  /** usfstl_vhost_user_get_virtq_buf takes a head. */
  function Take(q: Queue): Queue { q.(last := (q.last + 1) % WRAP, taken := q.taken + 1) }

  /** usfstl_vhost_user_send_virtq_buf returns one. */
  function Send(q: Queue, e: Used, position: nat): Queue
    requires 0 < q.num == |q.used|
  {
    q.(used := q.used[q.usedIdx % q.num := e], usedIdx := (q.usedIdx + 1) % WRAP,
       answers := q.answers + [e], positions := q.positions + [position])
  }

  /** The device takes the next head and returns it with `len` bytes written. Without a
      buffer (`buffer` false: the allocation failed) the head is taken but not returned. */
  function Serve(q: Queue, buffer: bool, len: nat): Outcome<Queue>
    requires 0 < q.num == |q.avail| == |q.used|
  {
    if q.availIdx == q.last then Ok(q)
    else
      var head := q.avail[q.last % q.num];
      if head >= q.num then Aborted
      else
        Ok(if buffer then Send(Take(q), Used(head, len), q.taken) else Take(q))
  }

  // ------------------------------------------------------------ invariant

  /** A ring size: power of two up to 32768. */
  predicate RingSize(num: nat) { 0 < num <= 32768 && WRAP % num == 0 }

  ghost predicate Available(q: Queue)
    requires 0 < q.num == |q.avail|
  {
    && q.availIdx == |q.heads| % WRAP && q.last == q.taken % WRAP && q.taken <= |q.heads| <= q.taken + q.num
    && (forall k :: q.taken <= k < |q.heads| ==> q.avail[Slot(k, q.num)] == q.heads[k])
  }

  function Slot(k: nat, num: nat): (r: nat)
    requires num > 0
    ensures r < num
  {
    k % num
  }

  ghost predicate Returned(q: Queue)
    requires 0 < q.num == |q.used|
  {
    && q.usedIdx == |q.answers| % WRAP
    && (forall k :: 0 <= k < |q.answers| && |q.answers| - q.num <= k ==> q.used[Slot(k, q.num)] == q.answers[k])
  }

  /** Heads are returned in the order they were made available, none twice. */
  ghost predicate InOrder(q: Queue) {
    && |q.positions| == |q.answers| <= q.taken <= |q.heads|
    && (forall k :: 0 <= k < |q.positions| ==> q.positions[k] < q.taken && q.answers[k].id == q.heads[q.positions[k]])
    && (forall j, k :: 0 <= j < k < |q.positions| ==> q.positions[j] < q.positions[k])
  }

  ghost predicate Inv(q: Queue) {
    && RingSize(q.num) && |q.avail| == |q.used| == q.num
    && Available(q) && Returned(q) && InOrder(q)
    && (forall k :: 0 <= k < |q.heads| ==> q.heads[k] < q.num)
  }

  // ------------------------------------------------------------ index arithmetic

  /** The wrapped index falls on the same slot as the count. */
  ghost predicate SameSlot(k: nat, num: nat)
    requires num > 0
  {
    (k % WRAP) % num == Slot(k, num)
  }

  lemma WrapKeepsSlot(k: nat, num: nat)
    requires RingSize(num)
    ensures SameSlot(k, num)
  {
    var a, b, c := k / WRAP, WRAP / num, (k % WRAP) / num;
    assert k == a * WRAP + k % WRAP && WRAP == b * num && k % WRAP == c * num + (k % WRAP) % num;
    assert a * (b * num) == (a * b) * num;
    assert (a * b) * num + c * num == (a * b + c) * num;
    ModUnique(k, num, a * b + c, (k % WRAP) % num);
  }

  /** Only for ring sizes that divide 2^16, the sizes VIRTIO allows. */
  lemma WrapKeepsSlotIff(num: nat)
    requires 0 < num < WRAP
    ensures (forall k: nat :: SameSlot(k, num)) <==> WRAP % num == 0
  {
    if WRAP % num == 0 {
      LargestRing(num);
      forall k: nat ensures SameSlot(k, num) {
        WrapKeepsSlot(k, num);
      }
    } else {
      assert !SameSlot(WRAP, num);
    }
  }

  lemma LargestRing(num: nat)
    requires 0 < num < WRAP && WRAP % num == 0
    ensures num <= 32768
  {
    if num > 32768 {
      ModUnique(WRAP, num, 1, WRAP - num);
    }
  }

  lemma DifferentSlots(j: nat, k: nat, num: nat)
    requires num > 0 && j < k < j + num
    ensures Slot(j, num) != Slot(k, num)
  {
    if j % num == k % num {
      assert (k / num - j / num) * num == k - j;
      Multiple(k / num - j / num, num);
    }
  }

  lemma DifferentIndex(j: nat, k: nat)
    requires j <= k < j + WRAP
    ensures j % WRAP == k % WRAP <==> j == k
  {
  }

  lemma NextIndex(k: nat)
    ensures (k % WRAP + 1) % WRAP == (k + 1) % WRAP
  {
  }

  // ------------------------------------------------------------ steps

  /** The driver never has more heads outstanding than the ring holds. */
  lemma PublishInv(q: Queue, head: nat)
    requires Inv(q) && head < q.num && |q.heads| < q.taken + q.num
    ensures Inv(Publish(q, head))
  {
    var n, t := |q.heads|, Publish(q, head);
    WrapKeepsSlot(n, q.num);
    NextIndex(n);
    forall k | t.taken <= k < |t.heads| ensures t.avail[Slot(k, t.num)] == t.heads[k] {
      if k < n {
        DifferentSlots(k, n, q.num);
      }
    }
  }

  lemma TakeAvailable(q: Queue, t: Queue)
    requires RingSize(q.num) && |q.avail| == q.num && Available(q) && q.taken < |q.heads|
    requires t.num == q.num && t.avail == q.avail && t.availIdx == q.availIdx && t.heads == q.heads
    requires t.last == (q.last + 1) % WRAP && t.taken == q.taken + 1
    ensures Available(t) && q.availIdx != q.last && q.avail[q.last % q.num] == q.heads[q.taken]
  {
    WrapKeepsSlot(q.taken, q.num);
    NextIndex(q.taken);
    DifferentIndex(q.taken, |q.heads|);
  }

  lemma ReturnUsed(q: Queue, t: Queue, e: Used)
    requires RingSize(q.num) && |q.used| == q.num && Returned(q) && t.num == q.num
    requires t.used == q.used[q.usedIdx % q.num := e] && t.usedIdx == (q.usedIdx + 1) % WRAP && t.answers == q.answers + [e]
    ensures Returned(t)
  {
    var n := |q.answers|;
    WrapKeepsSlot(n, q.num);
    NextIndex(n);
    forall k | 0 <= k < |t.answers| && |t.answers| - t.num <= k ensures t.used[Slot(k, t.num)] == t.answers[k] {
      if k < n {
        DifferentSlots(k, n, q.num);
      }
    }
  }

  /** Nothing is served exactly if nothing is available, and no assertion fails. */
  lemma ServeInv(q: Queue, buffer: bool, len: nat)
    requires Inv(q)
    ensures Serve(q, buffer, len).Ok? && Inv(Serve(q, buffer, len).s)
    ensures Serve(q, buffer, len).s == q <==> q.taken == |q.heads|
  {
    DifferentIndex(q.taken, |q.heads|);
    if q.taken < |q.heads| {
      TakeAvailable(q, Take(q));
      var t := Serve(q, buffer, len).s;
      TakeAvailable(q, t);
      if buffer {
        ReturnUsed(q, t, Used(q.heads[q.taken], len));
      }
    }
  }

  // ------------------------------------------------------------ runs

  datatype Step = Publishes(head: nat) | Serves(buffer: bool, len: nat)

  ghost predicate Allowed(q: Queue, e: Step) {
    e.Publishes? ==> e.head < q.num && |q.heads| < q.taken + q.num
  }

  function Do(q: Queue, e: Step): Outcome<Queue>
    requires 0 < q.num == |q.avail| == |q.used|
  {
    match e
    case Publishes(head) => Ok(Publish(q, head))
    case Serves(buffer, len) => Serve(q, buffer, len)
  }

  ghost predicate Legal(q: Queue, run: seq<Step>)
    requires 0 < q.num == |q.avail| == |q.used|
    decreases |run|
  {
    run == [] || (Allowed(q, run[0]) && (Do(q, run[0]).Ok? ==> Legal(Do(q, run[0]).s, run[1..])))
  }

  function Run(q: Queue, run: seq<Step>): Outcome<Queue>
    requires 0 < q.num == |q.avail| == |q.used|
    decreases |run|
  {
    if run == [] then Ok(q)
    else match Do(q, run[0]) {
      case Aborted => Aborted
      case Ok(t) => Run(t, run[1..])
    }
  }

  /** How many heads are lost because there was no buffer for them. */
  function Drops(q: Queue, run: seq<Step>): nat
    requires 0 < q.num == |q.avail| == |q.used|
    decreases |run|
  {
    if run == [] then 0
    else match Do(q, run[0]) {
      case Aborted => 0
      case Ok(t) => (if run[0].Serves? && !run[0].buffer && q.availIdx != q.last then 1 else 0) + Drops(t, run[1..])
    }
  }

  /** In every run no assertion fails, and the heads taken are those answered and those lost. */
  lemma {:induction false} RunInv(q: Queue, run: seq<Step>)
    requires Inv(q) && Legal(q, run)
    ensures Run(q, run).Ok? && Inv(Run(q, run).s)
    ensures Run(q, run).s.taken - |Run(q, run).s.answers| == q.taken - |q.answers| + Drops(q, run)
    decreases |run|
  {
    if run != [] {
      match run[0] {
        case Publishes(head) => PublishInv(q, head);
        case Serves(buffer, len) => ServeInv(q, buffer, len);
      }
      RunInv(Do(q, run[0]).s, run[1..]);
    }
  }

  lemma {:induction false} Identity(p: seq<nat>, k: nat)
    requires k < |p| && (forall i :: 0 <= i < |p| ==> p[i] < |p|)
    requires forall i, j :: 0 <= i < j < |p| ==> p[i] < p[j]
    ensures p[k] == k
  {
    AtLeast(p, k);
    AtMost(p, k);
  }

  lemma {:induction false} AtLeast(p: seq<nat>, k: nat)
    requires k < |p| && forall i, j :: 0 <= i < j < |p| ==> p[i] < p[j]
    ensures p[k] >= k
  {
    if k > 0 { AtLeast(p, k - 1); }
  }

  lemma {:induction false} AtMost(p: seq<nat>, k: nat)
    requires k < |p| && (forall i :: 0 <= i < |p| ==> p[i] < |p|) && forall i, j :: 0 <= i < j < |p| ==> p[i] < p[j]
    ensures p[k] <= k
    decreases |p| - k
  {
    if k + 1 < |p| { AtMost(p, k + 1); }
  }

  /** As many answers as heads taken means that every head taken was answered, and then the
      k-th answer is for the k-th head made available. */
  lemma AnswersInOrder(q: Queue)
    requires Inv(q)
    ensures |q.answers| == q.taken ==> forall k :: 0 <= k < q.taken ==> q.positions[k] == k && q.answers[k].id == q.heads[k]
  {
    if |q.answers| == q.taken {
      forall k | 0 <= k < q.taken ensures q.positions[k] == k && q.answers[k].id == q.heads[k] {
        Identity(q.positions, k);
      }
    }
  }

  /** Over every run, service is FIFO and exact if and only if no allocation failed. */
  lemma RunIsFifoIff(q: Queue, run: seq<Step>)
    requires Inv(q) && |q.answers| == q.taken && Legal(q, run)
    ensures Run(q, run).Ok?
    ensures FifoExact(Run(q, run).s) <==> Drops(q, run) == 0
  {
    RunInv(q, run);
    AnswersInOrder(Run(q, run).s);
  }

  ghost predicate FifoExact(t: Queue) {
    |t.answers| == t.taken <= |t.heads| && forall k :: 0 <= k < t.taken ==> t.answers[k].id == t.heads[k]
  }

  /** A failed allocation loses the next head for good: the one after it is answered instead. */
  lemma FailedAllocationDrops(q: Queue, len: nat)
    requires Inv(q) && |q.answers| == q.taken && q.taken + 1 < |q.heads|
    ensures Serve(q, false, len).Ok? && Serve(Serve(q, false, len).s, true, len).Ok?
    ensures Serve(Serve(q, false, len).s, true, len).s.answers == q.answers + [Used(q.heads[q.taken + 1], len)]
    ensures q.taken !in Serve(Serve(q, false, len).s, true, len).s.positions
  {
    ServeInv(q, false, len);
    var t := Serve(q, false, len).s;
    ServeInv(t, true, len);
    TakeAvailable(q, t);
    TakeAvailable(t, Take(t));
  }

  // ------------------------------------------------------------ a queue

  /** What the rings stand for: the heads that wait, and what has been answered. */
  datatype Fifo = Fifo(waiting: seq<nat>, answered: seq<Used>)

  ghost function FifoOf(q: Queue): Fifo
    requires q.taken <= |q.heads|
  {
    Fifo(q.heads[q.taken..], q.answers)
  }

  function FifoStep(f: Fifo, e: Step): Fifo {
    match e
    case Publishes(head) => Fifo(f.waiting + [head], f.answered)
    case Serves(buffer, len) =>
      if f.waiting == [] then f
      else Fifo(f.waiting[1..], f.answered + if buffer then [Used(f.waiting[0], len)] else [])
  }

  function FifoRun(f: Fifo, run: seq<Step>): Fifo
    decreases |run|
  {
    if run == [] then f else FifoRun(FifoStep(f, run[0]), run[1..])
  }

  lemma StepIsFifo(q: Queue, e: Step)
    requires Inv(q) && Allowed(q, e)
    ensures Do(q, e).Ok? && Inv(Do(q, e).s) && FifoOf(Do(q, e).s) == FifoStep(FifoOf(q), e)
  {
    match e
    case Publishes(head) => PublishInv(q, head);
    case Serves(buffer, len) =>
      ServeInv(q, buffer, len);
      DifferentIndex(q.taken, |q.heads|);
      if q.taken < |q.heads| { TakeAvailable(q, Take(q)); }
  }

  /** Over every run, rings and indices do what a queue does: heads are served in the order in
      which they were made available, each once, with the length that was written; and the
      driver finds the last answers in the used ring. */
  lemma {:induction false} RunIsQueue(q: Queue, run: seq<Step>)
    requires Inv(q) && Legal(q, run)
    ensures Run(q, run).Ok? && Inv(Run(q, run).s) && FifoOf(Run(q, run).s) == FifoRun(FifoOf(q), run)
    decreases |run|
  {
    if run != [] {
      StepIsFifo(q, run[0]);
      RunIsQueue(Do(q, run[0]).s, run[1..]);
    }
  }
}
