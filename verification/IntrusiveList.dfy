/** The circular doubly linked list of include/usfstl/list.h, refining a sequence, and
    the list operations of the scheduler written on its pointers. */
module IntrusiveList {
  import opened CyclicTime
  import opened JobList

  /** A list entry together with the job that contains it. */
  class Entry {
    var next: Entry?
    var prev: Entry?
    var job: Job

    constructor (job: Job)
      ensures next == null && prev == null && this.job == job
    {
      next, prev, this.job := null, null, job;
    }
  }

  ghost predicate Link(a: Entry, b: Entry)
    reads a, b
  {
    a.next == b && b.prev == a
  }

  ghost predicate Distinct(ring: seq<Entry>) {
    forall i, j :: 0 <= i < j < |ring| ==> ring[i] != ring[j]
  }

  /** Consecutive entries are linked, and the last one to the first. */
  ghost predicate Linked(ring: seq<Entry>)
    requires ring != []
    reads ring
  {
    && (forall i :: 0 <= i < |ring| - 1 ==> Link(ring[i], ring[i + 1]))
    && Link(ring[|ring| - 1], ring[0])
  }

  /** The entry that follows position `i` of the ring. */
  ghost function After(ring: seq<Entry>, i: nat): Entry
    requires i < |ring|
  {
    if i + 1 < |ring| then ring[i + 1] else ring[0]
  }

  lemma AfterIsNext(ring: seq<Entry>, i: nat)
    requires i < |ring| && Linked(ring)
    ensures Link(ring[i], After(ring, i))
  {
  }

  /** The jobs of a run of entries. */
  ghost function Jobs(es: seq<Entry>): (r: seq<Job>)
    reads es
    ensures |r| == |es|
    ensures forall i :: 0 <= i < |es| ==> r[i] == es[i].job
  {
    seq(|es|, i requires 0 <= i < |es| reads es => es[i].job)
  }

  class List {
    const head: Entry
    ghost var ring: seq<Entry>

    ghost predicate Valid()
      reads this, ring
    {
      && ring != [] && ring[0] == head
      && Distinct(ring) && Linked(ring)
    }

    /** The list items in order; the head is not an item. */
    ghost function Contents(): seq<Job>
      requires Valid()
      reads this, ring
    {
      Jobs(ring[1..])
    }

    constructor (dummy: Job)
      ensures Valid() && fresh(head) && ring == [head] && Contents() == []
    {
      var h := new Entry(dummy);
      head := h;
      ring := [h];
      new;
      head.next, head.prev := head, head;
    }

    /** usfstl_list_insert_before: `existing` is the item at position `k`, or the head. */
    method InsertBefore(existing: Entry, e: Entry, ghost k: nat)
      requires Valid() && e !in ring
      requires 1 <= k <= |ring| && existing == (if k < |ring| then ring[k] else head)
      modifies this`ring, ring, e
      ensures Valid() && ring == old(ring)[..k] + [e] + old(ring)[k..]
      ensures e.job == old(e.job) && forall x :: x in old(ring) ==> x.job == old(x.job)
    {
      ghost var r, t := ring, ring[..k] + [e] + ring[k..];
      AfterIsNext(r, k - 1);
      var before := existing.prev;
      e.prev := before;
      before.next := e;
      existing.prev := e;
      e.next := existing;
      ring := t;
      forall i | 0 <= i < |t| - 1 ensures Link(t[i], t[i + 1]) {
        if i + 1 < k {
          assert old(Link(r[i], r[i + 1]));
        } else if i > k {
          assert old(Link(r[i - 1], r[i]));
        }
      }
      assert k < |r| ==> old(Link(r[|r| - 1], r[0]));
    }

    /** usfstl_list_item_remove for the item at position `k`. */
    method Remove(e: Entry, ghost k: nat)
      requires Valid() && 1 <= k < |ring| && ring[k] == e
      modifies this`ring, ring
      ensures Valid() && ring == old(ring)[..k] + old(ring)[k + 1..]
      ensures e.next == null && e.prev == null
      ensures forall x :: x in old(ring) ==> x.job == old(x.job)
    {
      ghost var r, t := ring, ring[..k] + ring[k + 1..];
      AfterIsNext(r, k);
      AfterIsNext(r, k - 1);
      var after, before := e.next, e.prev;
      after.prev := before;
      before.next := after;
      e.next := null;
      e.prev := null;
      ring := t;
      forall i | 0 <= i < |t| - 1 ensures Link(t[i], t[i + 1]) {
        if i + 1 < k {
          assert old(Link(r[i], r[i + 1]));
        } else if i >= k {
          assert old(Link(r[i + 1], r[i + 2]));
        }
      }
      assert k + 1 < |r| ==> old(Link(r[|r| - 1], r[0]));
    }

    /** usfstl_list_length. */
    method Length() returns (count: nat)
      requires Valid()
      ensures count == |Contents()|
    {
      count := 0;
      AfterIsNext(ring, 0);
      var item := head.next;
      while item != head
        invariant count < |ring| && item == After(ring, count)
        decreases |ring| - count
      {
        count := count + 1;
        AfterIsNext(ring, count);
        item := item.next;
      }
    }

    /** The scan of usfstl_sched_add_job: the entry to insert in front of. */
    method Scan(job: Job) returns (tmp: Entry, ghost k: nat)
      requires Valid()
      ensures k == Position(Contents(), job) && k < |ring| && tmp == After(ring, k)
    {
      AfterIsNext(ring, 0);
      tmp, k := head.next, 0;
      while tmp != head && !Stops(tmp.job, job)
        invariant k < |ring| && tmp == After(ring, k)
        invariant forall i :: 0 <= i < k ==> !Stops(Contents()[i], job)
        decreases |ring| - k
      {
        assert tmp.job == Contents()[k];
        k := k + 1;
        AfterIsNext(ring, k);
        tmp := tmp.next;
      }
      assert k < |Contents()| ==> tmp.job == Contents()[k];
      PositionUnique(Contents(), job, k);
    }

    /** The insertion of usfstl_sched_add_job computes `JobList.Insert`. */
    method AddJob(e: Entry)
      requires Valid() && e !in ring
      modifies this`ring, ring, e
      ensures Valid() && (forall x :: x in ring ==> x in old(ring) || x == e)
      ensures Contents() == Insert(old(Contents()), old(e.job))
    {
      ghost var r := ring;
      var tmp, k := Scan(e.job);
      InsertBefore(tmp, e, k + 1);
      SameJobs(r[1..]);
      Spliced(r, e, k, old(Contents()));
      With(r, e, k + 1);
    }

    /** usfstl_sched_del_job for the first item. */
    method RemoveFirst(first: Entry)
      requires Valid() && |ring| > 1 && ring[1] == first
      modifies this`ring, ring
      ensures Valid() && first.next == null && old(Contents()) != []
      ensures first.job == old(Contents())[0] && Contents() == old(Contents())[1..]
    {
      ghost var r := ring;
      Remove(first, 1);
      assert ring[1..] == r[2..];
    }

    /** usfstl_sched_next_pending and usfstl_sched_del_job: take the first job off the list. */
    method TakeFirst() returns (e: Entry?)
      requires Valid()
      modifies this`ring, ring
      ensures Valid()
      ensures e == null <==> old(Contents()) == []
      ensures e == null ==> Contents() == []
      ensures e != null ==> e.next == null && [e.job] + Contents() == old(Contents())
    {
      AfterIsNext(ring, 0);
      if head.next == head {
        return null;
      }
      e := head.next;
      RemoveFirst(e);
    }

    /** usfstl_list_append. */
    method Append(e: Entry)
      requires Valid() && e !in ring
      modifies this`ring, ring, e
      ensures Valid() && ring == old(ring) + [e]
      ensures e.job == old(e.job) && forall x :: x in old(ring) ==> x.job == old(x.job)
    {
      InsertBefore(head, e, |ring|);
    }

    method AppendJob(e: Entry)
      requires Valid() && e !in ring
      modifies this`ring, ring, e
      ensures Valid() && Contents() == old(Contents()) + [old(e.job)]
      ensures forall x :: x in ring ==> x in old(ring) || x == e
    {
      ghost var r := ring;
      Append(e);
      SameJobs(r[1..]);
      Appended(r, e, old(Contents()));
    }

    /** No entry is on both lists. */
    ghost predicate Apart(other: List)
      reads this, other
    {
      this != other && (forall x :: x in ring ==> x !in other.ring) && forall x :: x in other.ring ==> x !in ring
    }

    twostate lemma Untouched()
      requires old(Valid()) && ring == old(ring)
      requires forall x :: x in ring ==> x.next == old(x.next) && x.prev == old(x.prev) && x.job == old(x.job)
      ensures Valid() && Contents() == old(Contents())
    {
      forall i | 0 <= i < |ring| - 1 ensures Link(ring[i], ring[i + 1]) {
        assert ring[i] in ring && ring[i + 1] in ring && old(Link(ring[i], ring[i + 1]));
      }
      assert ring[|ring| - 1] in ring && ring[0] in ring && old(Link(ring[|ring| - 1], ring[0]));
    }

    method RemoveApart(other: List, e: Entry, ghost k: nat)
      requires Valid() && other.Valid() && Apart(other) && 1 <= k < |ring| && ring[k] == e
      modifies this`ring, ring
      ensures Valid() && other.Valid() && Apart(other) && e !in ring && e !in other.ring
      ensures ring == old(ring)[..k] + old(ring)[k + 1..] && forall x :: x in ring ==> x in old(ring)
      ensures forall x :: x in old(ring) || x in other.ring ==> x.job == old(x.job)
    {
      Without(ring, k);
      Remove(e, k);
      other.Untouched();
    }

    method AppendApart(other: List, e: Entry)
      requires Valid() && other.Valid() && Apart(other) && e !in ring && e !in other.ring
      modifies other`ring, other.ring, e
      ensures Valid() && other.Valid() && Apart(other) && Contents() == old(Contents())
      ensures other.Contents() == old(other.Contents()) + [old(e.job)]
      ensures forall x :: x in other.ring ==> x in old(other.ring) || x == e
    {
      other.AppendJob(e);
      Untouched();
    }

    method AddApart(other: List, e: Entry)
      requires Valid() && other.Valid() && Apart(other) && e !in ring && e !in other.ring
      modifies other`ring, other.ring, e
      ensures Valid() && other.Valid() && Apart(other) && Contents() == old(Contents())
      ensures other.Contents() == Insert(old(other.Contents()), old(e.job))
      ensures forall x :: x in other.ring ==> x in old(other.ring) || x == e
    {
      other.AddJob(e);
      Untouched();
    }

    /** usfstl_next_item. */
    method NextItem(item: Entry, ghost k: nat) returns (next: Entry?)
      requires Valid() && k < |ring| && ring[k] == item
      ensures next == At(ring, k + 1)
    {
      AfterIsNext(ring, k);
      next := if item.next != head then item.next else null;
    }
  }

  ghost function Entries(a: seq<Entry>, b: seq<Entry>): (r: set<Entry>)
    ensures (forall x :: x in a ==> x in r) && (forall x :: x in b ==> x in r) && forall x :: x in r ==> x in a || x in b
  {
    (set x | x in a) + (set x | x in b)
  }

  /** The item at position `k` of a ring, null past the last one. */
  ghost function At(ring: seq<Entry>, k: nat): Entry? { if k < |ring| then ring[k] else null }

  lemma With(r: seq<Entry>, e: Entry, k: nat)
    requires k <= |r|
    ensures forall x :: x in r[..k] + [e] + r[k..] ==> x in r || x == e
  {
  }

  lemma Without(r: seq<Entry>, k: nat)
    requires Distinct(r) && k < |r|
    ensures r[k] !in r[..k] + r[k + 1..] && forall x :: x in r[..k] + r[k + 1..] ==> x in r
  {
  }

  lemma Unlinked(r: seq<Entry>, k: nat, was: seq<Job>)
    requires 1 <= k < |r| && Jobs(r[1..]) == was
    ensures Jobs((r[..k] + r[k + 1..])[1..]) == was[..k - 1] + was[k..]
  {
  }

  lemma Appended(r: seq<Entry>, e: Entry, was: seq<Job>)
    requires r != [] && Jobs(r[1..]) == was
    ensures Jobs((r + [e])[1..]) == was + [e.job]
  {
  }

  twostate lemma SameJobs(es: seq<Entry>)
    requires forall x :: x in es ==> x.job == old(x.job)
    ensures Jobs(es) == old(Jobs(es))
  {
  }

  lemma JobsConcat(a: seq<Entry>, b: seq<Entry>)
    ensures Jobs(a + b) == Jobs(a) + Jobs(b)
  {
  }

  lemma Spliced(r: seq<Entry>, e: Entry, k: nat, was: seq<Job>)
    requires k < |r| && Jobs(r[1..]) == was
    ensures Jobs((r[..k + 1] + [e] + r[k + 1..])[1..]) == was[..k] + [e.job] + was[k..]
  {
    var items := r[1..];
    var a, b := items[..k], items[k..];
    assert items == a + b && (r[..k + 1] + [e] + r[k + 1..])[1..] == a + [e] + b;
    JobsConcat(a, b);
    assert Jobs(a) == was[..k] && Jobs(b) == was[k..];
    JobsConcat(a, [e]);
    JobsConcat(a + [e], b);
  }
}
