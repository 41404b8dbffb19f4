/** The five linked run queues together. */
module RunQueues {
  import opened Basics
  import opened ThreadLists
  import opened Constants

  class RunQueues {
    const queues: seq<RunQueue>

    /** Everything the queues are made of. */
    ghost function Threads(): set<Thread>
      reads queues
    {
      set p, t | 0 <= p < |queues| && t in queues[p].items :: t
    }

    /** Five separate well-linked lists; the threads of list `p` have priority `p`. */
    ghost predicate Valid()
      reads queues, Threads()`next, Threads()`prev, Threads()`priority
    {
      && |queues| == PRIORITIES
      && (forall p, q :: 0 <= p < q < PRIORITIES ==> queues[p] != queues[q] && Apart(queues[p].items, queues[q].items))
      && (forall p :: 0 <= p < PRIORITIES ==> queues[p].Valid())
      && (forall p, t :: 0 <= p < PRIORITIES && t in queues[p].items ==> t.priority == p)
    }

    constructor ()
      ensures Valid() && |queues| == PRIORITIES && fresh(queues) && forall p :: 0 <= p < PRIORITIES ==>
        queues[p].items == []
    {
      var qs: seq<RunQueue> := [];
      while |qs| < PRIORITIES
        invariant |qs| <= PRIORITIES && fresh(qs)
        invariant forall p :: 0 <= p < |qs| ==> qs[p].Valid() && qs[p].items == []
        invariant forall p, q :: 0 <= p < q < |qs| ==> qs[p] != qs[q]
      {
        var q := new RunQueue();
        qs := qs + [q];
      }
      queues := qs;
    }

    /** scheduler_enqueue. */
    method Enqueue(t: Thread)
      requires Valid() && t !in Threads() && t.priority < PRIORITIES
      modifies queues, t`next, t`prev, Threads()`prev
      ensures Valid() && Threads() <= old(Threads()) + {t}
      ensures forall p :: 0 <= p < PRIORITIES ==>
        queues[p].items == (if p == t.priority then [t] else []) + old(queues[p].items)
    {
      var p := if t.priority >= PRIORITIES then NORMAL else t.priority;
      queues[p].Push(t);
    }

    twostate lemma Fewer()
      requires forall p :: 0 <= p < |queues| ==> Set(queues[p].items) <= old(Set(queues[p].items))
      ensures Threads() <= old(Threads())
    {
      forall x | x in Threads() ensures x in old(Threads()) {
        var p :| 0 <= p < |queues| && x in queues[p].items;
        assert x in Set(queues[p].items);
        assert x in old(queues[p].items);
      }
    }

    /** scheduler_dequeue: the thread leaves the queue of its priority. */
    method Dequeue(t: Thread, ghost n: nat)
      requires Valid() && t.priority < PRIORITIES && n < |queues[t.priority].items| && t == queues[t.priority].items[n]
      modifies queues, Threads()`next, Threads()`prev
      ensures Valid() && t !in Threads() && Threads() <= old(Threads())
      ensures forall p :: 0 <= p < PRIORITIES ==>
        queues[p].items == if p == t.priority then Cut(old(queues[p].items), n) else old(queues[p].items)
    {
      queues[t.priority].FrontAndOrder();
      CutDistinct(queues[t.priority].items, n);
      CutSet(queues[t.priority].items, n);
      queues[t.priority].Unlink(t, n);
      Fewer();
    }

    /** The highest non-empty queue, or -1. */
    method Top() returns (p: int)
      requires Valid()
      ensures -1 <= p < PRIORITIES && (p >= 0 ==> queues[p].items != [] && queues[p].head == queues[p].items[0])
      ensures forall q :: p < q < PRIORITIES ==> queues[q].items == []
    {
      hide RunQueue.Valid, Linked;
      p := PRIORITIES - 1;
      while p >= 0
        invariant -1 <= p < PRIORITIES && Valid() && forall q :: p < q < PRIORITIES ==> queues[q].items == []
      {
        assert queues[p].Valid();
        queues[p].FrontAndOrder();
        if queues[p].head != null {
          return;
        }
        p := p - 1;
      }
    }

    /** scheduler_pick_next: the head of the highest non-empty queue leaves it; null when all are empty. */
    method PickNext() returns (t: Thread?, ghost top: int)
      requires Valid()
      modifies queues, Threads()`next, Threads()`prev
      ensures Valid() && Threads() <= old(Threads()) && -1 <= top < PRIORITIES && (t == null <==> top < 0)
      ensures forall p :: top < p < PRIORITIES ==> old(queues[p].items) == []
      ensures top >= 0 ==> old(queues[top].items) != [] && t == old(queues[top].items)[0] && t.priority == top
      ensures forall p :: 0 <= p < PRIORITIES && p != top ==> queues[p].items == old(queues[p].items)
      ensures top >= 0 ==> queues[top].items == old(queues[top].items)[1..]
    {
      hide RunQueue.Valid, Linked;
      var p := Top();
      top := p;
      if p < 0 {
        return null, top;
      }
      t := TakeHead(p);
    }

    method TakeHead(p: nat) returns (t: Thread)
      requires Valid() && p < PRIORITIES && queues[p].items != []
      modifies queues, Threads()`next, Threads()`prev
      ensures Valid() && Threads() <= old(Threads()) && t == old(queues[p].items)[0] && t.priority == p
      ensures forall q :: 0 <= q < PRIORITIES ==>
        queues[q].items == if q == p then old(queues[q].items)[1..] else old(queues[q].items)
    {
      ghost var q := queues[p].items;
      assert q[0] in q && Set(q[1..]) <= Set(q);
      t := queues[p].Pop();
      Fewer();
    }
  }
}
