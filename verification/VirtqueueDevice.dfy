/** The device side of a virtqueue as updates in place (src/vhost.c): the two passes over a
    descriptor chain and the service loop, proved against module Virtqueue. */
module VirtqueueDevice {
  import opened Virtqueue

  /** A descriptor: `write` if the device writes to it, `more` if `next` continues the chain. */
  datatype Desc = Desc(addr: nat, len: nat, write: bool, more: bool, next: nat)

  datatype Vec = Vec(base: nat, len: nat)

  const PREALLOC: nat := 5

  /** `chain` are the descriptors from `head` on, without a cycle. */
  ghost predicate IsChain(desc: seq<Desc>, head: nat, chain: seq<nat>) {
    && chain != [] && chain[0] == head
    && (forall i :: 0 <= i < |chain| ==> chain[i] < |desc| && (desc[chain[i]].more <==> i + 1 < |chain|))
    && (forall i, j :: 0 <= i && j == i + 1 && j < |chain| ==> desc[chain[i]].next == chain[j])
  }

  /** The descriptors of a chain that are (or are not) for writing, in order. */
  ghost function Select(desc: seq<Desc>, chain: seq<nat>, write: bool): seq<Vec>
    requires forall i :: 0 <= i < |chain| ==> chain[i] < |desc|
    decreases |chain|
  {
    if chain == [] then []
    else
      var d := desc[chain[|chain| - 1]];
      Select(desc, chain[..|chain| - 1], write) + (if d.write == write then [Vec(d.addr, d.len)] else [])
  }

  lemma SelectNext(desc: seq<Desc>, chain: seq<nat>, n: nat, write: bool)
    requires n < |chain| && forall i :: 0 <= i < |chain| ==> chain[i] < |desc|
    ensures var d := desc[chain[n]];
            Select(desc, chain[..n + 1], write) ==
            Select(desc, chain[..n], write) + (if d.write == write then [Vec(d.addr, d.len)] else [])
  {
    assert chain[..n + 1][..n] == chain[..n];
  }

  lemma {:induction false} SelectGrows(desc: seq<Desc>, chain: seq<nat>, n: nat, write: bool)
    requires n <= |chain| && forall i :: 0 <= i < |chain| ==> chain[i] < |desc|
    ensures |Select(desc, chain[..n], write)| <= |Select(desc, chain, write)|
    decreases |chain| - n
  {
    if n == |chain| {
      assert chain[..n] == chain;
    } else {
      SelectNext(desc, chain, n, write);
      SelectGrows(desc, chain, n + 1, write);
    }
  }

  /** struct usfstl_vhost_user_buf; in a buffer not in use, `nIn` and `nOut` are what the
      device believes it can hold. */
  class Buf {
    const inSg: array<Vec>
    const outSg: array<Vec>
    var nIn: nat
    var nOut: nat
    var idx: nat
    var written: nat

    ghost predicate Valid()
      reads this
    {
      inSg != outSg && nIn <= inSg.Length && nOut <= outSg.Length
    }

    constructor (nIn: nat, nOut: nat)
      ensures Valid() && fresh(inSg) && fresh(outSg)
      ensures inSg.Length == nIn == this.nIn && outSg.Length == nOut == this.nOut && written == 0
    {
      var a := new Vec[nIn](i => Vec(0, 0));
      var b := new Vec[nOut](i => Vec(0, 0));
      inSg, outSg, this.nIn, this.nOut, idx, written := a, b, nIn, nOut, 0, 0;
    }

    /** Append one descriptor; no write falls outside the two arrays. */
    method Append(d: Desc)
      requires Valid() && if d.write then nIn < inSg.Length else nOut < outSg.Length
      modifies this`nIn, this`nOut, inSg, outSg
      ensures Valid()
      ensures inSg[..nIn] == old(inSg[..nIn]) + if d.write then [Vec(d.addr, d.len)] else []
      ensures outSg[..nOut] == old(outSg[..nOut]) + if !d.write then [Vec(d.addr, d.len)] else []
    {
      if d.write {
        inSg[nIn] := Vec(d.addr, d.len);
        nIn := nIn + 1;
      } else {
        outSg[nOut] := Vec(d.addr, d.len);
        nOut := nOut + 1;
      }
    }

    /** The buffer holds the descriptors of the chain, split and in order. */
    ghost predicate Holds(desc: seq<Desc>, chain: seq<nat>)
      requires forall i :: 0 <= i < |chain| ==> chain[i] < |desc|
      reads this, inSg, outSg
    {
      Valid() && inSg[..nIn] == Select(desc, chain, true) && outSg[..nOut] == Select(desc, chain, false)
    }
  }

  /** First pass: count. */
  method Count(desc: seq<Desc>, head: nat, ghost chain: seq<nat>) returns (nIn: nat, nOut: nat)
    requires IsChain(desc, head, chain)
    ensures nIn == |Select(desc, chain, true)| && nOut == |Select(desc, chain, false)|
  {
    nIn, nOut := 0, 0;
    var at, more := head, true;
    ghost var n := 0;
    while more
      invariant n <= |chain| && (more <==> n < |chain|) && (more ==> at == chain[n])
      invariant nIn == |Select(desc, chain[..n], true)| && nOut == |Select(desc, chain[..n], false)|
      decreases |chain| - n
    {
      var d := desc[at];
      SelectNext(desc, chain, n, true);
      SelectNext(desc, chain, n, false);
      more := d.more;
      if d.write {
        nIn := nIn + 1;
      } else {
        nOut := nOut + 1;
      }
      at, n := d.next, n + 1;
    }
    assert chain[..n] == chain;
  }

  method FillOne(desc: seq<Desc>, ghost chain: seq<nat>, ghost n: nat, at: nat, buf: Buf)
    requires n < |chain| && chain[n] == at && forall i :: 0 <= i < |chain| ==> chain[i] < |desc|
    requires |Select(desc, chain, true)| <= buf.inSg.Length && |Select(desc, chain, false)| <= buf.outSg.Length
    requires buf.Holds(desc, chain[..n])
    modifies buf`nIn, buf`nOut, buf.inSg, buf.outSg
    ensures buf.Holds(desc, chain[..n + 1])
  {
    SelectNext(desc, chain, n, true);
    SelectNext(desc, chain, n, false);
    SelectGrows(desc, chain, n + 1, true);
    SelectGrows(desc, chain, n + 1, false);
    buf.Append(desc[at]);
  }

  /** Second pass: fill. */
  method Fill(desc: seq<Desc>, head: nat, ghost chain: seq<nat>, buf: Buf)
    requires IsChain(desc, head, chain) && buf.inSg != buf.outSg
    requires |Select(desc, chain, true)| <= buf.inSg.Length && |Select(desc, chain, false)| <= buf.outSg.Length
    modifies buf`nIn, buf`nOut, buf.inSg, buf.outSg
    ensures buf.Holds(desc, chain)
  {
    buf.nIn, buf.nOut := 0, 0;
    var at, more := head, true;
    ghost var n := 0;
    while more
      invariant n <= |chain| && (more <==> n < |chain|) && (more ==> at == chain[n])
      invariant buf.Holds(desc, chain[..n])
      decreases |chain| - n
    {
      FillOne(desc, chain, n, at, buf);
      more := desc[at].more;
      at, n := desc[at].next, n + 1;
    }
    assert chain[..n] == chain;
  }

  /** What the driver gets back for a head: it, and how much the handler wrote for its chain. */
  ghost function Answered(desc: seq<Desc>, head: nat, chains: map<nat, seq<nat>>, handle: (seq<Vec>, seq<Vec>) -> nat): Used {
    if head in chains && IsChain(desc, head, chains[head])
    then Used(head, handle(Select(desc, chains[head], true), Select(desc, chains[head], false))) else Used(head, 0)
  }

  /** After `was`, one answer for each of `hs`, in order. */
  ghost predicate AllAnswered(
      was: seq<Used>, answers: seq<Used>, desc: seq<Desc>, hs: seq<nat>, chains: map<nat, seq<nat>>, handle: (seq<Vec>, seq<Vec>) -> nat) {
    && |answers| == |was| + |hs| && answers[..|was|] == was
    && forall i :: 0 <= i < |hs| ==> answers[|was| + i] == Answered(desc, hs[i], chains, handle)
  }

  lemma OneMoreAnswered(
      was: seq<Used>, answers: seq<Used>, desc: seq<Desc>, heads: seq<nat>, from: nat, n: nat, chains: map<nat, seq<nat>>,
      handle: (seq<Vec>, seq<Vec>) -> nat)
    requires from <= n < |heads| && AllAnswered(was, answers, desc, heads[from..n], chains, handle)
    ensures AllAnswered(was, answers + [Answered(desc, heads[n], chains, handle)], desc, heads[from..n + 1], chains, handle)
  {
    assert heads[from..n + 1] == heads[from..n] + [heads[n]];
  }

  /** A virtqueue of a device, with its memory and its history. */
  class Device {
    const num: nat
    var desc: seq<Desc>
    var avail: seq<nat>
    var availIdx: nat
    var last: nat
    var used: seq<Used>
    var usedIdx: nat
    ghost var heads: seq<nat>
    ghost var taken: nat
    ghost var answers: seq<Used>
    ghost var positions: seq<nat>

    ghost function View(): Queue
      reads this
    {
      Queue(num, avail, availIdx, last, used, usedIdx, heads, taken, answers, positions)
    }

    constructor (num: nat, desc: seq<Desc>)
      requires RingSize(num) && |desc| == num
      ensures Inv(View()) && this.num == num && this.desc == desc && heads == [] && answers == []
    {
      this.num, this.desc := num, desc;
      avail, used := seq(num, i => 0), seq(num, i => Used(0, 0));
      availIdx, last, usedIdx, heads, taken, answers, positions := 0, 0, 0, [], 0, [], [];
    }

    /** `chains` names the chain of every head. */
    ghost predicate Chained(chains: map<nat, seq<nat>>)
      reads this
    {
      |desc| == num && forall k :: taken <= k < |heads| ==> heads[k] in chains && IsChain(desc, heads[k], chains[heads[k]])
    }

    /** The next head's chain goes to `fixed` if it fits what was last stored there, and to a
        new buffer otherwise; `memory`: the allocation succeeds. */
    method GetBuf(fixed: Buf, ghost chains: map<nat, seq<nat>>, memory: bool) returns (buf: Buf?)
      requires Inv(View()) && Chained(chains) && fixed.Valid()
      modifies `last, `taken, fixed, fixed.inSg, fixed.outSg
      ensures old(taken) == |heads| ==> buf == null && View() == old(View())
      ensures old(taken) < |heads| ==> View() == Take(old(View()))
      ensures memory && old(taken) < |heads| ==> buf != null
      ensures buf != null ==> old(taken) < |heads| && (buf == fixed || (fresh(buf) && fresh(buf.inSg) && fresh(buf.outSg)))
      ensures buf != null ==> buf.idx == heads[old(taken)] && buf.Holds(desc, chains[buf.idx])
      ensures fixed.Valid()
    {
      DifferentIndex(taken, |heads|);
      if availIdx == last {
        return null;
      }
      TakeAvailable(View(), Take(View()));
      var slot := last % num;
      last, taken := (last + 1) % WRAP, taken + 1;
      var head := avail[slot];
      ghost var chain := chains[head];
      var nIn, nOut := Count(desc, head, chain);
      var b := fixed;
      if nIn > fixed.nIn || nOut > fixed.nOut {
        if !memory {
          return null;
        }
        b := new Buf(nIn, nOut);
      }
      b.idx := head;
      Fill(desc, head, chain, b);
      return b;
    }

    /** The head of `buf` is returned; `position` is where it was made available. */
    method SendBuf(buf: Buf, ghost position: nat)
      requires 0 < num == |used|
      modifies `used, `usedIdx, `answers, `positions
      ensures View() == Send(old(View()), Used(buf.idx, buf.written), position)
    {
      var slot := usedIdx % num;
      used := used[slot := Used(buf.idx, buf.written)];
      usedIdx := (usedIdx + 1) % WRAP;
      answers, positions := answers + [Used(buf.idx, buf.written)], positions + [position];
    }

    /** usfstl_vhost_user_handle_queue for one buffer: take, handle, return. `handle` says
        how many bytes the handler writes for a chain. */
    method ServeOne(fixed: Buf, ghost chains: map<nat, seq<nat>>, memory: bool, handle: (seq<Vec>, seq<Vec>) -> nat)
      returns (more: bool)
      requires Inv(View()) && Chained(chains) && fixed.Valid()
      modifies `last, `taken, `used, `usedIdx, `answers, `positions, fixed, fixed.inSg, fixed.outSg
      ensures fixed.Valid() && desc == old(desc) && heads == old(heads) && Inv(View()) && Chained(chains)
      ensures old(taken) == |heads| ==> !more && View() == old(View())
      ensures old(taken) < |heads| ==> taken == old(taken) + 1 && (memory ==> more)
      ensures more ==>
                && old(taken) < |heads| && heads[old(taken)] in chains
                && IsChain(desc, heads[old(taken)], chains[heads[old(taken)]])
                && answers == old(answers) + [Answered(desc, heads[old(taken)], chains, handle)]
      ensures !more ==> answers == old(answers)
    {
      ghost var q := View();
      var buf := GetBuf(fixed, chains, memory);
      if buf == null {
        ServeInv(q, false, 0);
        DifferentIndex(q.taken, |q.heads|);
        if q.taken < |q.heads| { TakeAvailable(q, Take(q)); }
        return false;
      }
      buf.written := handle(buf.inSg[..buf.nIn], buf.outSg[..buf.nOut]);
      ServeInv(q, true, buf.written);
      TakeAvailable(q, Take(q));
      SendBuf(buf, q.taken);
      return true;
    }

    /** `was` and `from` are what was answered and taken when the loop began. */
    method ServeNext(
        fixed: Buf, ghost chains: map<nat, seq<nat>>, memory: bool, handle: (seq<Vec>, seq<Vec>) -> nat,
        ghost was: seq<Used>, ghost from: nat)
      returns (more: bool)
      requires Inv(View()) && Chained(chains) && fixed.Valid() && from <= taken
      requires memory ==> AllAnswered(was, answers, desc, heads[from..taken], chains, handle)
      modifies `last, `taken, `used, `usedIdx, `answers, `positions, fixed, fixed.inSg, fixed.outSg
      ensures fixed.Valid() && desc == old(desc) && heads == old(heads) && Inv(View()) && Chained(chains)
      ensures old(taken) <= taken && (more ==> old(taken) < taken) && (memory && !more ==> taken == |heads|)
      ensures memory ==> AllAnswered(was, answers, desc, heads[from..taken], chains, handle)
    {
      ghost var n, a := taken, answers;
      more := ServeOne(fixed, chains, memory, handle);
      if memory {
        if more {
          OneMoreAnswered(was, a, desc, heads, from, n, chains, handle);
        } else {
          assert taken == n && answers == a;
        }
      }
    }

    /** The service loop: with memory, every available head is answered, in order. */
    method HandleQueue(ghost chains: map<nat, seq<nat>>, memory: bool, handle: (seq<Vec>, seq<Vec>) -> nat)
      requires Inv(View()) && Chained(chains)
      modifies `last, `taken, `used, `usedIdx, `answers, `positions
      ensures desc == old(desc) && heads == old(heads) && Inv(View())
      ensures memory ==> taken == |heads| && |answers| == |old(answers)| + |heads| - old(taken)
      ensures memory && |old(answers)| == old(taken) ==> FifoExact(View())
      ensures memory ==> AllAnswered(old(answers), answers, desc, heads[old(taken)..], chains, handle)
    {
      var fixed := new Buf(PREALLOC, PREALLOC);
      var more := true;
      while more
        invariant Inv(View()) && Chained(chains) && fixed.Valid() && fresh(fixed) && fresh(fixed.inSg) && fresh(fixed.outSg)
        invariant desc == old(desc) && heads == old(heads) && old(taken) <= taken
        invariant memory && !more ==> taken == |heads|
        invariant memory ==> AllAnswered(old(answers), answers, desc, heads[old(taken)..taken], chains, handle)
        decreases |heads| - taken, more
      {
        more := ServeNext(fixed, chains, memory, handle, old(answers), old(taken));
      }
      assert memory ==> heads[old(taken)..taken] == heads[old(taken)..];
      AnswersInOrder(View());
    }
  }
}
