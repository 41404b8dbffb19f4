/** The intrusive lists of the scheduler: threads linked through their own fields. */
module ThreadLists {
  import opened Basics

  /** thread_state_t, without the zombies. */
  datatype ThreadState = RUNNING | READY | SLEEPING | BLOCKED

  class Thread {
    const id: nat
    /** The thread has no owning process. */
    const kernel: bool
    /** sched_next and sched_prev: the run queues, doubly linked, and the sleep queue, singly. */
    var next: Thread?
    var prev: Thread?
    /** wait_queue_next. */
    var waitNext: Thread?
    var state: ThreadState
    var priority: nat
    var nice: int
    var boosted: bool
    var waitStart: nat
    var wakeTick: nat
    var slice: nat
    var preemptCount: nat

    constructor (id: nat, kernel: bool, priority: nat, slice: nat)
      ensures this.id == id && this.kernel == kernel && this.priority == priority && this.slice == slice
      ensures next == null && prev == null && waitNext == null && state == READY
      ensures nice == 0 && !boosted && waitStart == 0 && wakeTick == 0 && preemptCount == 0
    {
      this.id, this.kernel, this.priority, this.slice := id, kernel, priority, slice;
      next, prev, waitNext, state := null, null, null, READY;
      nice, boosted, waitStart, wakeTick, preemptCount := 0, false, 0, 0, 0;
    }
  }

  ghost function Set(q: seq<Thread>): set<Thread> { set t | t in q }

  ghost predicate Apart(a: seq<Thread>, b: seq<Thread>) { Set(a) !! Set(b) }

  function At(q: seq<Thread>, i: int): Thread? { if 0 <= i < |q| then q[i] else null }

  /** `q` without the thread at position `i`. */
  function Cut(q: seq<Thread>, i: nat): seq<Thread>
    requires i < |q|
  {
    q[..i] + q[i + 1..]
  }

  lemma CutAt(q: seq<Thread>, i: nat, k: int)
    requires i < |q|
    ensures At(Cut(q, i), k) == At(q, if k < i then k else k + 1)
  {
  }

  lemma CutSet(q: seq<Thread>, i: nat)
    requires Distinct(q) && i < |q|
    ensures Set(Cut(q, i)) == Set(q) - {q[i]}
  {
    forall x | x in q && x != q[i] ensures x in Cut(q, i) {
      var k :| 0 <= k < |q| && q[k] == x;
      assert Cut(q, i)[if k < i then k else k - 1] == x;
    }
  }

  lemma CutDistinct(q: seq<Thread>, i: nat)
    requires Distinct(q) && i < |q|
    ensures Distinct(Cut(q, i)) && q[i] !in Cut(q, i)
  {
  }

  // ----- run queues

  /** The thread at position `i` points to its neighbours. */
  ghost predicate LinkAt(q: seq<Thread>, i: nat)
    requires i < |q|
    reads Set(q)`next, Set(q)`prev
  {
    q[i].next == At(q, i + 1) && q[i].prev == At(q, i - 1)
  }

  /** Following the links from `head` visits exactly `q`, forwards and backwards. */
  ghost predicate Linked(head: Thread?, q: seq<Thread>)
    reads Set(q)`next, Set(q)`prev
  {
    Distinct(q) && head == At(q, 0) && forall i :: 0 <= i < |q| ==> LinkAt(q, i)
  }

  /** The thread at position `k` points to its neighbours as if position `i` were not there. */
  ghost predicate SkipsAt(q: seq<Thread>, i: nat, k: nat)
    requires k < |q|
    reads Set(q)`next, Set(q)`prev
  {
    && q[k].next == At(q, if k + 1 == i then k + 2 else k + 1)
    && q[k].prev == At(q, if k == i + 1 then k - 2 else k - 1)
  }

  lemma Relinked(q: seq<Thread>, i: nat)
    requires Distinct(q) && i < |q| && forall k :: 0 <= k < |q| && k != i ==> SkipsAt(q, i, k)
    ensures Linked(At(q, if i == 0 then 1 else 0), Cut(q, i)) && q[i] !in Cut(q, i)
  {
    var c := Cut(q, i);
    CutDistinct(q, i);
    CutAt(q, i, 0);
    forall k: nat | k < |c| ensures LinkAt(c, k) {
      RelinkedAt(q, i, k);
    }
    hide SkipsAt, LinkAt, Distinct;
  }

  lemma RelinkedAt(q: seq<Thread>, i: nat, k: nat)
    requires i < |q| && k < |Cut(q, i)| && SkipsAt(q, i, if k < i then k else k + 1)
    ensures LinkAt(Cut(q, i), k)
  {
    CutAt(q, i, k);
    CutAt(q, i, k + 1);
    CutAt(q, i, k - 1);
    hide Cut;
  }

  class RunQueue {
    var head: Thread?
    ghost var items: seq<Thread>

    ghost predicate Valid()
      reads this, Set(items)`next, Set(items)`prev
    {
      Linked(head, items)
    }

    constructor ()
      ensures Valid() && items == []
    {
      head, items := null, [];
    }

    /** scheduler_enqueue: the thread becomes the head of its queue. */
    method Push(t: Thread)
      requires Valid() && t !in items
      modifies this, t`next, t`prev, Set(items)`prev
      ensures Valid() && items == [t] + old(items)
    {
      ghost var q := items;
      t.prev := null;
      t.next := head;
      if head != null {
        assert old(LinkAt(q, 0));
        head.prev := t;
      }
      head := t;
      items := [t] + items;
      forall k: nat | k < |items| ensures LinkAt(items, k) {
        assert k > 0 ==> old(LinkAt(q, k - 1));
      }
    }

    /** The unlinking in scheduler_dequeue, scheduler_preempt and scheduler_tick. */
    method Unlink(t: Thread, ghost i: nat)
      requires Valid() && i < |items| && items[i] == t
      modifies this, Set(items)`next, Set(items)`prev
      ensures Valid() && items == Cut(old(items), i)
      ensures t.next == null && t.prev == null
    {
      ghost var q := items;
      assert LinkAt(q, i);
      assert i > 0 ==> LinkAt(q, i - 1);
      assert i + 1 < |q| ==> LinkAt(q, i + 1);
      if t.prev != null {
        t.prev.next := t.next;
      } else {
        head := t.next;
      }
      if t.next != null {
        t.next.prev := t.prev;
      }
      t.next, t.prev := null, null;
      items := Cut(items, i);
      forall k: nat | k < |q| && k != i ensures SkipsAt(q, i, k) {
        assert old(LinkAt(q, k));
      }
      Relinked(q, i);
    }

    /** scheduler_pick_next on a non-empty queue. */
    method Pop() returns (t: Thread)
      requires Valid() && items != []
      modifies this, Set(items)`next, Set(items)`prev
      ensures Valid() && t == old(items)[0] && items == old(items)[1..] && t.next == null && t.prev == null
    {
      t := head;
      Unlink(t, 0);
    }

    lemma FrontAndOrder()
      requires Valid()
      ensures head == At(items, 0) && Distinct(items)
    {
    }

    lemma Successor(i: nat)
      requires Valid() && i < |items|
      ensures items[i].next == At(items, i + 1)
    {
      assert LinkAt(items, i);
    }
  }

  // ----- the sleep queue

  /** Position `i` points to its successor. */
  ghost predicate NextAt(q: seq<Thread>, i: nat)
    requires i < |q|
    reads Set(q)`next
  {
    q[i].next == At(q, i + 1)
  }

  ghost predicate Chained(head: Thread?, q: seq<Thread>)
    reads Set(q)`next
  {
    Distinct(q) && head == At(q, 0) && forall i :: 0 <= i < |q| ==> NextAt(q, i)
  }

  ghost predicate Sorted(q: seq<Thread>)
    reads Set(q)`wakeTick
  {
    forall i, j :: 0 <= i < j < |q| ==> q[i].wakeTick <= q[j].wakeTick
  }

  function Spliced(q: seq<Thread>, n: nat, t: Thread): seq<Thread>
    requires n <= |q|
  {
    q[..n] + [t] + q[n..]
  }

  /** `n` is where a thread that wakes at `tick` goes: behind everyone who wakes no later. */
  ghost predicate Slot(q: seq<Thread>, n: nat, tick: nat)
    reads Set(q)`wakeTick
  {
    n <= |q| && (forall i :: 0 <= i < n ==> q[i].wakeTick <= tick) && forall i :: n <= i < |q| ==> tick < q[i].wakeTick
  }

  lemma SplicedAt(q: seq<Thread>, n: nat, t: Thread, k: int)
    requires n <= |q|
    ensures At(Spliced(q, n, t), k) == if k < n then At(q, k) else if k == n then t else At(q, k - 1)
  {
  }

  /** Position `k` points to its successor once `t` is in front of position `n`. */
  ghost predicate Spliced1(q: seq<Thread>, n: nat, t: Thread, k: nat)
    requires k < |q|
    reads Set(q)`next
  {
    q[k].next == if k + 1 == n then t else At(q, k + 1)
  }

  lemma SplicedChain(q: seq<Thread>, n: nat, t: Thread)
    requires Distinct(q) && t !in q && n <= |q| && t.next == At(q, n)
    requires forall k :: 0 <= k < |q| ==> Spliced1(q, n, t, k)
    ensures Chained(if n == 0 then t else At(q, 0), Spliced(q, n, t))
  {
    var s := Spliced(q, n, t);
    SplicedAt(q, n, t, 0);
    forall k: nat | k < |s| ensures NextAt(s, k) {
      SplicedAt(q, n, t, k);
      SplicedAt(q, n, t, k + 1);
      assert k < n ==> Spliced1(q, n, t, k);
      assert k > n ==> Spliced1(q, n, t, k - 1);
    }
    assert Distinct(s);
    hide Spliced;
  }

  lemma SplicedSorted(q: seq<Thread>, n: nat, t: Thread)
    requires Sorted(q) && Slot(q, n, t.wakeTick)
    ensures Sorted(Spliced(q, n, t))
  {
  }

  lemma FrontSlot(head: Thread?, q: seq<Thread>, tick: nat)
    requires Sorted(q) && head == At(q, 0)
    ensures head == null || tick < head.wakeTick ==> Slot(q, 0, tick)
    ensures head != null ==> q != [] && q[0] == head
  {
  }

  lemma SlotFits(q: seq<Thread>, n: nat, tick: nat)
    requires Slot(q, n, tick)
    ensures n <= |q|
  {
  }

  twostate lemma StillSorted(q: seq<Thread>)
    requires old(Sorted(q)) && forall x :: x in Set(q) ==> x.wakeTick == old(x.wakeTick)
    ensures Sorted(q)
  {
  }

  class SleepQueue {
    var head: Thread?
    ghost var items: seq<Thread>

    ghost predicate Valid()
      reads this, Set(items)`next, Set(items)`wakeTick
    {
      Chained(head, items) && Sorted(items)
    }

    constructor ()
      ensures Valid() && items == []
    {
      head, items := null, [];
    }

    /** The search of thread_sleep_ticks behind the head. */
    method FindPrev(tick: nat) returns (prev: Thread, ghost n: nat)
      requires Valid() && items != [] && items[0].wakeTick <= tick
      ensures 0 < n <= |items| && prev == items[n - 1] && prev.next == At(items, n) && Slot(items, n, tick)
    {
      prev := head;
      n := 1;
      assert NextAt(items, 0);
      while prev.next != null && prev.next.wakeTick <= tick
        invariant 1 <= n <= |items| && prev == items[n - 1] && prev.next == At(items, n)
        invariant prev.wakeTick <= tick
        decreases |items| - n
      {
        prev := prev.next;
        assert NextAt(items, n);
        n := n + 1;
      }
    }

    method LinkAfter(prev: Thread?, t: Thread, ghost n: nat)
      requires Chained(head, items) && t !in items && n <= |items| && prev == At(items, n - 1)
      modifies this, t`next, Set(items)`next
      ensures Chained(head, items) && items == Spliced(old(items), n, t)
    {
      ghost var q := items;
      if prev == null {
        t.next := head;
        head := t;
      } else {
        assert NextAt(q, n - 1);
        t.next := prev.next;
        prev.next := t;
      }
      items := Spliced(items, n, t);
      forall k: nat | k < |q| ensures Spliced1(q, n, t, k) {
        assert old(NextAt(q, k));
      }
      SplicedChain(q, n, t);
    }

    /** The insertion of thread_sleep_ticks. */
    method Insert(t: Thread) returns (ghost n: nat)
      requires Valid() && t !in items
      modifies this, t`next, Set(items)`next
      ensures Valid() && old(Slot(items, n, t.wakeTick)) && items == Spliced(old(items), n, t)
    {
      n := 0;
      var prev: Thread? := null;
      hide Spliced, Distinct, Sorted, Slot, NextAt;
      FrontSlot(head, items, t.wakeTick);
      if !(head == null || t.wakeTick < head.wakeTick) {
        prev, n := FindPrev(t.wakeTick);
      }
      SlotFits(items, n, t.wakeTick);
      SplicedSorted(items, n, t);
      ghost var s := Spliced(items, n, t);
      label before:
      LinkAfter(prev, t, n);
      StillSorted@before(s);
    }

    /** One round of scheduler_wake_sleeping: the first thread, if it is due. */
    method PopDue(now: nat) returns (t: Thread?)
      requires Valid()
      modifies this, Set(items)`next
      ensures Valid()
      ensures if t == null then items == old(items) && forall i :: 0 <= i < |items| ==> now < items[i].wakeTick
              else
                && old(items) != [] && t == old(items)[0] && t.wakeTick <= now && t.next == null
                && items == old(items)[1..]
    {
      ghost var q := items;
      if head == null || head.wakeTick > now {
        return null;
      }
      t := head;
      assert NextAt(q, 0);
      head := t.next;
      t.next := null;
      items := items[1..];
      forall k: nat | k < |items| ensures NextAt(items, k) {
        assert old(NextAt(q, k + 1));
      }
    }
  }

  // ----- wait queues

  ghost predicate WaitNextAt(q: seq<Thread>, i: nat)
    requires i < |q|
    reads Set(q)`waitNext
  {
    q[i].waitNext == At(q, i + 1)
  }

  /** The chain read from the head, which is all that sync.c relies on. */
  ghost predicate Waiting(head: Thread?, q: seq<Thread>)
    reads Set(q)`waitNext
  {
    Distinct(q) && head == At(q, 0) && forall i :: 0 <= i < |q| ==> WaitNextAt(q, i)
  }

  /** Position `k` once position `i` is bypassed. */
  ghost predicate WaitSkipsAt(q: seq<Thread>, i: nat, k: nat)
    requires k < |q|
    reads Set(q)`waitNext
  {
    q[k].waitNext == At(q, if k + 1 == i then k + 2 else k + 1)
  }

  lemma WaitRelinked(q: seq<Thread>, i: nat)
    requires Distinct(q) && i < |q| && forall k :: 0 <= k < |q| && k != i ==> WaitSkipsAt(q, i, k)
    ensures Waiting(At(q, if i == 0 then 1 else 0), Cut(q, i))
    ensures At(Cut(q, i), |q| - 2) == At(q, if i == |q| - 1 then i - 1 else |q| - 1)
  {
    var c := Cut(q, i);
    CutDistinct(q, i);
    CutAt(q, i, 0);
    CutAt(q, i, |q| - 2);
    forall k: nat | k < |c| ensures WaitNextAt(c, k) {
      CutAt(q, i, k);
      CutAt(q, i, k + 1);
      assert WaitSkipsAt(q, i, if k < i then k else k + 1);
    }
    hide WaitSkipsAt, Distinct;
  }

  /** Position `k` once `t` is behind the last one. */
  ghost predicate WaitLeadsTo(q: seq<Thread>, t: Thread, k: nat)
    requires k < |q|
    reads Set(q)`waitNext
  {
    q[k].waitNext == if k + 1 < |q| then q[k + 1] else t
  }

  lemma WaitAppended(q: seq<Thread>, t: Thread)
    requires Distinct(q) && t !in q && t.waitNext == null && forall k :: 0 <= k < |q| ==> WaitLeadsTo(q, t, k)
    ensures Waiting(if q == [] then t else q[0], q + [t])
  {
    var s := q + [t];
    forall k: nat | k < |s| ensures WaitNextAt(s, k) {
      assert k < |q| ==> WaitLeadsTo(q, t, k);
    }
    assert Distinct(s);
    hide WaitLeadsTo, Distinct;
  }

  class WaitQueue {
    var head: Thread?
    var tail: Thread?
    ghost var items: seq<Thread>

    /** Head and tail both current, as wait_queue_* keep them. */
    ghost predicate Valid()
      reads this, Set(items)`waitNext
    {
      Waiting(head, items) && tail == At(items, |items| - 1)
    }

    constructor ()
      ensures Valid() && items == []
    {
      head, tail, items := null, null, [];
    }

    /** wait_queue_enqueue_locked. */
    method Enqueue(t: Thread)
      requires Valid() && t !in items
      modifies this, t`waitNext, Set(items)`waitNext
      ensures Valid() && items == old(items) + [t]
    {
      ghost var q := items;
      t.waitNext := null;
      if tail != null {
        tail.waitNext := t;
      } else {
        head := t;
      }
      tail := t;
      items := items + [t];
      forall k: nat | k < |q| ensures WaitLeadsTo(q, t, k) {
        assert old(WaitNextAt(q, k));
      }
      WaitAppended(q, t);
    }

    /** The enqueue of sync.c, which walks to the end of the chain and leaves a non-null tail alone. */
    method EnqueueByWalk(t: Thread)
      requires Waiting(head, items) && t !in items
      modifies this, t`waitNext, Set(items)`waitNext
      ensures Waiting(head, items) && items == old(items) + [t]
      ensures tail == if old(tail) == null then t else old(tail)
    {
      ghost var q := items;
      ghost var n := 0;
      var last: Thread? := null;
      var cur := head;
      while cur != null
        invariant 0 <= n <= |q| && cur == At(q, n) && last == At(q, n - 1)
        decreases |q| - n
      {
        assert WaitNextAt(q, n);
        last, cur, n := cur, cur.waitNext, n + 1;
      }
      if last == null {
        head := t;
      } else {
        last.waitNext := t;
      }
      t.waitNext := null;
      if tail == null {
        tail := t;
      }
      items := items + [t];
      forall k: nat | k < |q| ensures WaitLeadsTo(q, t, k) {
        assert old(WaitNextAt(q, k));
      }
      WaitAppended(q, t);
    }

    /** wait_queue_dequeue_locked and the wake-ups of sync.c. */
    method Dequeue() returns (t: Thread?)
      requires Waiting(head, items)
      modifies this, Set(items)`waitNext
      ensures Waiting(head, items) && (old(Valid()) ==> Valid())
      ensures if old(items) == [] then t == null && items == [] && tail == old(tail)
              else
                && t == old(items)[0] && items == old(items)[1..] && t.waitNext == null
                && tail == if items == [] then null else old(tail)
    {
      ghost var q := items;
      if head == null {
        return null;
      }
      t := head;
      assert WaitNextAt(q, 0);
      head := t.waitNext;
      if head == null {
        tail := null;
      }
      t.waitNext := null;
      items := items[1..];
      forall k: nat | k < |items| ensures WaitNextAt(items, k) {
        assert old(WaitNextAt(q, k + 1));
      }
    }

    /** wait_queue_remove: search from the head and unlink. */
    method Remove(t: Thread) returns (found: bool)
      requires Valid()
      modifies this, Set(items)`waitNext
      ensures Valid() && found == (t in old(items))
      ensures if found then exists i ::
        0 <= i < |old(items)| && old(items)[i] == t && items == Cut(old(items), i) else items == old(items)
    {
      ghost var q := items;
      var prev: Thread?, curr, i := null, head, 0;
      while curr != null && curr != t
        invariant 0 <= i <= |q| && curr == At(q, i) && prev == At(q, i - 1) && t !in q[..i]
        decreases |q| - i
      {
        assert WaitNextAt(q, i);
        prev, curr, i := curr, curr.waitNext, i + 1;
      }
      if curr == null {
        assert q[..i] == q;
        return false;
      }
      RemoveAt(prev, t, i);
      return true;
    }

    method RemoveAt(prev: Thread?, t: Thread, ghost i: nat)
      requires Valid() && i < |items| && t == items[i] && prev == At(items, i - 1)
      modifies this, Set(items)`waitNext
      ensures Valid() && items == Cut(old(items), i)
    {
      ghost var q := items;
      assert WaitNextAt(q, i);
      if prev != null {
        assert WaitNextAt(q, i - 1);
        prev.waitNext := t.waitNext;
      } else {
        head := t.waitNext;
      }
      if t == tail {
        tail := prev;
      }
      t.waitNext := null;
      items := Cut(q, i);
      forall k: nat | k < |q| && k != i ensures WaitSkipsAt(q, i, k) {
        assert old(WaitNextAt(q, k));
      }
      WaitRelinked(q, i);
    }
  }
}
