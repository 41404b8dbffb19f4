/** What the blocking primitives share: a line of sleeping threads, the threads woken from it that
    have not tried again yet, and the history of both. */
module SyncBase {
  import opened Basics

  type Tid = nat

  /** `queue` sleeps; `pending` was woken and is about to retry. `queued` and `woken` record every
      thread in the order it went to sleep and in the order it was woken. */
  datatype Line = Line(queue: seq<Tid>, pending: set<Tid>, queued: seq<Tid>, woken: seq<Tid>) {

    predicate Inside(t: Tid) { t in queue || t in pending }

    function Sleep(t: Tid): Line { Line(queue + [t], pending - {t}, queued + [t], woken) }

    function Leave(t: Tid): Line { this.(pending := pending - {t}) }

    function WakeOne(): Line {
      if queue == [] then this else Line(queue[1..], pending + {queue[0]}, queued, woken + [queue[0]])
    }

    function WakeAll(): Line
      decreases |queue|
    {
      if queue == [] then this else WakeOne().WakeAll()
    }

    /** Nobody sleeps twice or sleeps while pending, and threads are woken first in, first out. */
    ghost predicate Ordered() {
      && Distinct(queue) && (forall t :: t in queue ==> t !in pending) && (forall t :: t in pending ==> t in woken)
      && queued == woken + queue
    }

    lemma SleepOrdered(t: Tid)
      requires Ordered() && t !in queue
      ensures Sleep(t).Ordered()
    {
    }

    lemma LeaveOrdered(t: Tid)
      requires Ordered()
      ensures Leave(t).Ordered() && |Leave(t).pending| >= |pending| - 1
    {
      if t in pending {
        assert |pending - {t}| == |pending| - 1;
      } else {
        assert pending - {t} == pending;
      }
    }

    lemma WakeOneOrdered()
      requires Ordered()
      ensures WakeOne().Ordered()
      ensures queue != [] ==> |WakeOne().pending| == |pending| + 1
    {
      if queue != [] {
        assert |pending + {queue[0]}| == |pending| + 1;
        assert queue == [queue[0]] + queue[1..];
      }
    }

    /** Waking moves a thread from the queue to `pending` and nobody else. */
    lemma WakeOneInside(t: Tid)
      requires Ordered()
      ensures WakeOne().Inside(t) <==> Inside(t)
      ensures t in WakeOne().queue <==> t in queue && t != queue[0]
      ensures t in WakeOne().pending <==> t in pending || (queue != [] && t == queue[0])
    {
      if queue != [] {
        assert queue == [queue[0]] + queue[1..];
      }
    }

    lemma {:induction false} WakeAllOrdered()
      requires Ordered()
      ensures WakeAll().Ordered() && WakeAll().queue == [] && pending <= WakeAll().pending
      ensures forall t :: t in WakeAll().pending <==> Inside(t)
      decreases |queue|
    {
      if queue != [] {
        WakeOneOrdered();
        WakeOne().WakeAllOrdered();
      }
    }

    /** The thread woken n-th is the one that went to sleep n-th. */
    lemma FirstInFirstOut(n: nat)
      requires Ordered() && n < |woken|
      ensures n < |queued| && woken[n] == queued[n]
    {
    }
  }

  const NOBODY := Line([], {}, [], [])
}
