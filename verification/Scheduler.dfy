/** The scheduler on its linked thread objects, each operation proved to be a step of the transition
    system. Run queues and sleep queue share the `next` field of a thread. */
module Scheduler {
  import opened Basics
  import opened Constants
  import opened ThreadLists
  import opened SchedSpec
  import L = SchedLaws
  import R = RunQueues

  ghost function Ids(q: seq<Thread>): (r: seq<Tid>)
    ensures |r| == |q| && forall i :: 0 <= i < |q| ==> r[i] == q[i].id
  {
    seq(|q|, i requires 0 <= i < |q| => q[i].id)
  }

  ghost function Names(threads: set<Thread>): set<Tid> { set t | t in threads :: t.id }

  ghost predicate Named(threads: set<Thread>) { forall t, u :: t in threads && u in threads && t.id == u.id ==> t == u }

  /** The fields of a thread that scheduling decisions read. */
  ghost function InfoOf(t: Thread): Info
    reads t`priority, t`nice, t`boosted, t`waitStart, t`wakeTick, t`slice, t`preemptCount
  {
    Info(t.priority, t.nice, t.boosted, t.waitStart, t.wakeTick, t.kernel, t.slice, t.preemptCount)
  }

  /** The state field of a thread that is in place `l`. */
  ghost predicate Shows(state: ThreadState, l: Place) {
    && (l.Running? ==> state == RUNNING) && (l.Ready? || l.Parked? ==> state == READY)
    && (l.Asleep? ==> state == SLEEPING) && (l.Blocked? ==> state == BLOCKED)
  }

  lemma IdsPush(q: seq<Thread>, t: Thread)
    ensures Ids([t] + q) == Insert(Ids(q), 0, t.id)
  {
  }

  lemma IdsAppend(q: seq<Thread>, t: Thread)
    ensures Ids(q + [t]) == Insert(Ids(q), |q|, t.id)
  {
  }

  lemma IdsSpliced(q: seq<Thread>, n: nat, t: Thread)
    requires n <= |q|
    ensures Ids(Spliced(q, n, t)) == Insert(Ids(q), n, t.id)
  {
  }

  lemma IdsCut(q: seq<Thread>, n: nat)
    requires n < |q|
    ensures Ids(Cut(q, n)) == Delete(Ids(q), n)
  {
  }

  lemma CutFirst(q: seq<Thread>)
    requires q != []
    ensures Cut(q, 0) == q[1..]
  {
  }

  /** Threads with numbers of their own. */
  ghost predicate Numbered(q: seq<Thread>) { Distinct(Ids(q)) }

  ghost function Enrolled(q: seq<Thread>): map<Tid, Info>
    reads Set(q)
  {
    if q == [] then map[] else
    var n := |q| - 1;
    assert forall t :: t in q[..n] ==> t in q;
    Enrolled(q[..n])[q[n].id := InfoOf(q[n])]
  }

  lemma EnrolledIs(q: seq<Thread>)
    requires Numbered(q)
    ensures forall t :: t in q ==> t.id in Enrolled(q) && Enrolled(q)[t.id] == InfoOf(t)
    ensures Enrolled(q).Keys == Names(Set(q)) && Named(Set(q))
  {
    hide Enrolled, InfoOf, Names, Numbered, Named;
    forall t | t in q ensures t.id in Enrolled(q) && Enrolled(q)[t.id] == InfoOf(t) {
      EnrolledAs(q, t);
    }
    EnrolledKeys(q);
    NumberedNamed(q);
  }

  lemma {:induction false} EnrolledAs(q: seq<Thread>, t: Thread)
    requires Numbered(q) && t in q
    ensures t.id in Enrolled(q) && Enrolled(q)[t.id] == InfoOf(t)
  {
    hide InfoOf, Numbered;
    var n := |q| - 1;
    FrontNumbered(q);
    if t != q[n] {
      assert q == q[..n] + [q[n]];
      EnrolledAs(q[..n], t);
    }
  }

  lemma {:induction false} EnrolledKeys(q: seq<Thread>)
    ensures Enrolled(q).Keys == Names(Set(q))
  {
    if q != [] {
      hide InfoOf;
      var n := |q| - 1;
      EnrolledKeys(q[..n]);
      assert q == q[..n] + [q[n]];
      assert Set(q) == Set(q[..n]) + {q[n]};
    }
  }

  lemma NumberedNamed(q: seq<Thread>)
    requires Numbered(q)
    ensures Named(Set(q))
  {
    forall t, u | t in Set(q) && u in Set(q) && t.id == u.id ensures t == u {
      var i :| 0 <= i < |q| && q[i] == t;
      var j :| 0 <= j < |q| && q[j] == u;
      assert Ids(q)[i] == t.id && Ids(q)[j] == u.id;
    }
  }

  lemma FrontNumbered(q: seq<Thread>)
    requires Numbered(q) && q != []
    ensures Numbered(q[..|q| - 1]) && forall t :: t in q[..|q| - 1] ==> t.id != q[|q| - 1].id
  {
    var n := |q| - 1;
    assert forall i :: 0 <= i < n ==> Ids(q[..n])[i] == Ids(q)[i];
    forall t | t in q[..n] ensures t.id != q[n].id {
      var i :| 0 <= i < n && q[i] == t;
      assert Ids(q)[i] != Ids(q)[n];
    }
  }

  lemma NotBefore(q: seq<Thread>, k: nat)
    requires Numbered(q) && k < |q|
    ensures q[k] !in q[..k]
  {
    forall i | 0 <= i < k ensures q[i] != q[k] {
      assert Ids(q)[i] != Ids(q)[k];
    }
  }

  /** The main thread runs, the idle thread is parked and the others are not queued yet. */
  ghost predicate Starting(s: State, main: Tid, idle: Tid) {
    && s.lists == map[] && s.current == main && s.idle == idle && main != idle && main in s.info && idle in s.info
    && s.place.Keys == s.info.Keys && (forall i :: i in s.info ==> s.info[i].priority < PRIORITIES)
    && forall i :: i in s.place ==>
      s.place[i] == if i == main then Place.Running else if i == idle then Parked else Moving
  }

  lemma StartingCore(s: State, main: Tid, idle: Tid)
    requires Starting(s, main, idle)
    ensures Core(s)
  {
    forall l: Place | l.Listed() ensures Holds(s, l) {
    }
  }

  lemma Apartness(main: Thread, idle: Thread, others: seq<Thread>)
    requires Numbered([main, idle] + others)
    ensures main !in others && idle !in others && Numbered(others)
  {
    var q := [main, idle] + others;
    forall i | 0 <= i < |others| ensures others[i].id != main.id && others[i].id != idle.id {
      assert Ids(q)[0] != Ids(q)[i + 2] && Ids(q)[1] != Ids(q)[i + 2];
    }
    forall i, j | 0 <= i < j < |others| ensures Ids(others)[i] != Ids(others)[j] {
      assert Ids(q)[i + 2] != Ids(q)[j + 2];
    }
  }

  ghost function Beginning(main: Thread, idle: Thread, others: seq<Thread>): State
    reads Set([main, idle] + others)
  {
    var info := Enrolled([main, idle] + others);
    State(map[], map i | i in info :: if i == main.id then Place.Running else if i == idle.id then Parked else Moving,
          info, main.id, idle.id)
  }

  lemma StartIs(main: Thread, idle: Thread, others: seq<Thread>)
    requires Numbered([main, idle] + others) && forall t :: t in [main, idle] + others ==> t.priority < PRIORITIES
    ensures Starting(Beginning(main, idle, others), main.id, idle.id)
    ensures Beginning(main, idle, others).info == Enrolled([main, idle] + others)
  {
    var q := [main, idle] + others;
    EnrolledIs(q);
    assert q[0] == main && q[1] == idle && Ids(q)[0] != Ids(q)[1];
    forall i | i in Enrolled(q) ensures Enrolled(q)[i].priority < PRIORITIES {
      var t :| t in Set(q) && t.id == i;
    }
    hide Enrolled, Ids;
  }

  lemma EnqueueIs(s: State, t: Tid)
    requires s.Of(t).priority < PRIORITIES
    ensures var z, l := SchedSpec.Enqueue(s, t), Ready(s.Of(t).priority);
      && z.info == s.info && z.current == s.current && z.idle == s.idle && z.place == s.place[t := l] && z.At(t) == l
      && z.List(l) == Insert(s.List(l), 0, t) && z.lists == s.lists[l := z.List(l)]
  {
  }

  lemma OutOfIs(s: State, l: Place, n: nat)
    requires n < |s.List(l)|
    ensures var z, t := s.OutOf(l, n), s.List(l)[n];
      && z.info == s.info && z.current == s.current && z.idle == s.idle && z.place == s.place[t := Moving]
      && z.At(t) == Moving
      && z.List(l) == Delete(s.List(l), n) && z.lists == s.lists[l := z.List(l)]
  {
  }

  lemma IntoIs(s: State, t: Tid, l: Place, n: nat)
    requires n <= |s.List(l)|
    ensures var z := s.Into(t, l, n);
      && z.info == s.info && z.current == s.current && z.idle == s.idle && z.place == s.place[t := l] && z.At(t) == l
      && z.List(l) == Insert(s.List(l), n, t) && z.lists == s.lists[l := z.List(l)]
  {
  }

  lemma TopIs(s: State, top: int)
    requires -1 <= top < PRIORITIES && (top >= 0 ==> s.List(Ready(top)) != [])
    requires forall p: nat :: top < p < PRIORITIES ==> s.List(Ready(p)) == []
    ensures top == Top(s, PRIORITIES)
  {
  }

  lemma CorePlaced(s: State)
    requires Core(s)
    ensures Placed(s)
  {
  }

  lemma PoisedCore(s: State)
    requires Poised(s)
    ensures Core(s) && var l := s.At(s.current); l == Place.Running || l == Asleep || l.Blocked?
  {
  }

  lemma LeavingOther(s: State, next: Tid)
    requires Leaving(s, next)
    ensures next != s.current
  {
  }

  lemma InvCore(s: State)
    requires Inv(s)
    ensures Core(s) && s.current in s.place && s.place[s.current] == Place.Running
  {
  }

  class Scheduler {
    const run: R.RunQueues
    const sleep: SleepQueue
    const waits: seq<WaitQueue>
    const idle: Thread
    var current: Thread
    /** Every thread there is. */
    ghost const threads: set<Thread>
    /** The state of the transition system that the objects stand for. */
    ghost var view: State

    ghost function Items(l: Place): seq<Thread>
      reads run.queues, sleep, waits
    {
      match l
      case Ready(p) => if p < |run.queues| then run.queues[p].items else []
      case Asleep => sleep.items
      case Blocked(w) => if w < |waits| then waits[w].items else []
      case _ => []
    }

    ghost predicate RunSound()
      reads run.queues, run.Threads()`next, run.Threads()`prev, run.Threads()`priority
    {
      run.Threads() <= threads && run.Valid()
    }

    ghost predicate SleepSound()
      reads sleep, Set(sleep.items)`next, Set(sleep.items)`wakeTick
    {
      Set(sleep.items) <= threads && sleep.Valid()
    }

    ghost predicate WaitSound()
      reads waits, threads`waitNext
    {
      Distinct(waits) && forall w :: 0 <= w < |waits| ==> Set(waits[w].items) <= threads && waits[w].Valid()
    }

    /** Every list is well linked and made of known threads. */
    ghost predicate Sound()
      reads run.queues, sleep, waits, threads`next, threads`prev, threads`waitNext, threads`priority, threads`wakeTick
    {
      && run.Threads() <= threads && RunSound() && Set(sleep.items) <= threads && SleepSound() && WaitSound()
    }

    /** List `l` of the transition system is the linked list in that place. */
    ghost predicate Backed(l: Place)
      reads `view, run.queues, sleep, waits
    {
      view.List(l) == Ids(Items(l))
    }

    ghost predicate Ties(t: Thread)
      reads `view, t
    {
      t.id in view.info && InfoOf(t) == view.info[t.id] && Shows(t.state, view.At(t.id))
    }

    ghost predicate Lists()
      reads `view, run.queues, sleep, waits
    {
      forall l: Place :: l.Listed() ==> Backed(l)
    }

    ghost predicate Fields()
      reads `view, threads
    {
      forall t :: t in threads ==> Ties(t)
    }

    ghost predicate Roster()
      reads `view, `current
    {
      && Named(threads) && view.info.Keys == Names(threads)
      && current in threads && idle in threads && current.id == view.current && idle.id == view.idle
    }

    /** The objects are in the state `view`. */
    ghost predicate Tied()
      reads this, run.queues, sleep, waits, threads
    {
      Sound() && Lists() && Fields() && Roster()
    }

    ghost predicate Valid()
      reads this, run.queues, sleep, waits, threads
    {
      Tied() && Inv(view)
    }

    /** scheduler_init and the enqueueing of thread_create: the main thread runs, the idle thread is
        parked, the other threads are in the run queues of their priorities. */
    constructor (main: Thread, idle: Thread, others: seq<Thread>, run: R.RunQueues, sleep: SleepQueue,
                 waits: seq<WaitQueue>)
      requires Numbered([main, idle] + others) && main.state == RUNNING && idle.state == READY
      requires forall t :: t in [main, idle] + others ==> t.priority < PRIORITIES
      requires run.Valid() && (forall p :: 0 <= p < |run.queues| ==> run.queues[p].items == [])
      requires sleep.Valid() && sleep.items == []
      requires Distinct(waits) && forall w :: 0 <= w < |waits| ==> waits[w].Valid() && waits[w].items == []
      modifies run.queues, main, idle, others
      ensures Valid() && current == main && threads == Set([main, idle] + others)
      ensures this.idle == idle && this.run == run && this.sleep == sleep && this.waits == waits
      ensures sleep.items == [] && forall t :: t in others ==>
        t.priority < |run.queues| && t in run.queues[t.priority].items
    {
      hide Inv, Core, R.RunQueues.Valid, SleepQueue.Valid, WaitQueue.Valid, Enrolled, Beginning, Tied, InfoOf, Numbered,
        Starting, Admitted;
      this.run, this.sleep, this.waits, this.idle, current := run, sleep, waits, idle, main;
      threads := Set([main, idle] + others);
      view := Beginning(main, idle, others);
      new;
      StartIs(main, idle, others);
      StartsTied(main, others);
      StartingCore(view, main.id, idle.id);
      ghost var s := view;
      Apartness(main, idle, others);
      Unplaced(s, main, others);
      Admit(others);
      AllAdmitted(s, main, others);
    }

    lemma StartsTied(main: Thread, others: seq<Thread>)
      requires run.Valid() && (forall p :: 0 <= p < |run.queues| ==> run.queues[p].items == [])
      requires sleep.Valid() && sleep.items == []
      requires Distinct(waits) && forall w :: 0 <= w < |waits| ==> waits[w].Valid() && waits[w].items == []
      requires Numbered([main, idle] + others) && threads == Set([main, idle] + others) && current == main
      requires Starting(view, main.id, idle.id) && view.info == Enrolled([main, idle] + others)
      requires main.state == RUNNING && idle.state == READY
      ensures Tied()
    {
      hide R.RunQueues.Valid, SleepQueue.Valid, WaitQueue.Valid, Enrolled, InfoOf, Numbered;
      var q := [main, idle] + others;
      EnrolledIs(q);
      assert q[0] == main && q[1] == idle && main in q && idle in q;
      assert run.Threads() == {};
      forall t | t in threads ensures Ties(t) {
        assert t in q;
      }
    }

    /** Exactly the threads in `others` have joined their run queues since `s`. */
    ghost predicate Admitted(s: State, others: seq<Thread>)
      reads `view
    {
      forall t :: t in threads && t.id in s.place ==>
        && t.id in view.place
        && view.place[t.id] == if t in others then Ready(view.Of(t.id).priority) else s.place[t.id]
    }

    /** The enqueueing of thread_create, for threads that are in no list yet. */
    method Admit(others: seq<Thread>)
      requires Tied() && Core(view) && Set(others) <= threads && Numbered(others)
      requires forall t :: t in others ==> t.id in view.place && view.place[t.id] == Moving
      modifies `view, run.queues, threads
      ensures Tied() && Core(view) && view.info == old(view).info && view.current == old(view).current
      ensures view.idle == old(view).idle && view.place.Keys == old(view).place.Keys
      ensures Admitted(old(view), others)
    {
      hide Tied, Core, SchedSpec.Enqueue, Numbered;
      for k := 0 to |others|
        invariant Tied() && Core(view) && view.info == old(view).info && view.current == old(view).current
        invariant view.idle == old(view).idle && view.place.Keys == old(view).place.Keys
        invariant Admitted(old(view), others[..k])
      {
        var t := others[k];
        NotBefore(others, k);
        assert t in others && t in Set(others);
        EnqueueCore(view, t.id);
        CoreKeys(view);
        EnqueueIs(view, t.id);
        SameNumber(t);
        MakeReady(t);
        assert others[..k + 1] == others[..k] + [t];
      }
      assert others[..|others|] == others;
    }

    lemma SameNumber(t: Thread)
      requires Tied() && t in threads
      ensures forall u :: u in threads && u.id == t.id ==> u == t
    {
    }

    lemma Unplaced(s: State, main: Thread, others: seq<Thread>)
      requires Tied() && view == s && Starting(s, main.id, idle.id) && main in threads && main !in others
      requires idle !in others && Set(others) <= threads
      ensures forall t :: t in others ==> t.id in s.place && s.place[t.id] == Moving
    {
      forall t | t in others ensures t.id in s.place && s.place[t.id] == Moving {
        assert t in Set(others) && Ties(t);
      }
      hide Sound, Lists;
    }

    lemma AllAdmitted(s: State, main: Thread, others: seq<Thread>)
      requires Tied() && Core(view) && threads == Set([main, idle] + others) && Numbered([main, idle] + others)
      requires Starting(s, main.id, idle.id) && view.info == s.info && view.current == s.current && view.idle == s.idle
      requires view.place.Keys == s.place.Keys && Admitted(s, others)
      ensures Inv(view)
      ensures forall t :: t in others ==> t.priority < |run.queues| && t in run.queues[t.priority].items
    {
      hide Inv, Core, Tied, Numbered;
      CoreKeys(view);
      Apartness(main, idle, others);
      AllRested(s, main, others);
      forall t | t in others ensures t.priority < |run.queues| && t in run.queues[t.priority].items {
        assert t in [main, idle] + others && t in threads;
        Known(t);
        There(t, Ready(t.priority));
      }
    }

    lemma AllRested(s: State, main: Thread, others: seq<Thread>)
      requires Tied() && Core(view) && threads == Set([main, idle] + others) && main !in others && idle !in others
      requires Starting(s, main.id, idle.id) && view.info == s.info && view.current == s.current && view.idle == s.idle
      requires view.place.Keys == s.place.Keys && Admitted(s, others)
      ensures Inv(view)
    {
      hide Core, Sound, Lists, Fields, Named;
      CoreKeys(view);
      assert main in [main, idle] + others && idle in [main, idle] + others;
      forall i | i in view.place
        ensures (view.place[i] == Place.Running <==> i == view.current) && view.place[i] != Moving
          && (view.place[i] == Parked ==> i == view.idle)
      {
        assert i in Names(threads);
        var t :| t in threads && t.id == i;
        assert t in [main, idle] + others;
      }
    }

    // ----- what the view says about the objects

    lemma Elsewhere(t: Thread, l: Place)
      requires Tied() && Placed(view) && t in threads && l.Listed() && view.At(t.id) != l
      ensures t !in Items(l)
    {
      assert Backed(l) && Holds(view, l);
      forall k | 0 <= k < |Items(l)| ensures Items(l)[k] != t {
        assert view.List(l)[k] == Items(l)[k].id && view.List(l)[k] in view.List(l);
      }
      hide Sound;
    }

    lemma NotReady(t: Thread)
      requires Tied() && Placed(view) && t in threads && !view.At(t.id).Ready?
      ensures t !in run.Threads()
    {
      forall p | 0 <= p < |run.queues| ensures t !in run.queues[p].items {
        Elsewhere(t, Ready(p));
      }
      hide Tied, Placed;
    }

    /** No thread is both ready and asleep, so the shared link is used by one list only. */
    lemma RunApart()
      requires Tied() && Placed(view)
      ensures run.Threads() !! Set(Items(Asleep))
    {
      forall t | t in sleep.items ensures t !in run.Threads() {
        assert Backed(Asleep) && Holds(view, Asleep);
        var k :| 0 <= k < |sleep.items| && sleep.items[k] == t;
        assert view.List(Asleep)[k] == t.id;
        assert t in Set(sleep.items);
        NotReady(t);
      }
      hide Tied, Placed;
    }

    lemma Known(t: Thread)
      requires Tied() && Core(view) && t in threads
      ensures t.id in view.place && t.id in view.info && InfoOf(t) == view.Of(t.id) && Placed(view)
      ensures t.priority == view.Of(t.id).priority < PRIORITIES && t.wakeTick == view.Of(t.id).wakeTick
      ensures |run.queues| == PRIORITIES && Ties(t)
    {
      assert Ties(t);
      hide Sound;
    }

    lemma Listing(l: Place)
      requires Lists() && l.Listed()
      ensures view.List(l) == Ids(Items(l))
    {
      assert Backed(l);
    }

    // ----- the linked lists, one at a time

    lemma Members()
      requires Sound()
      ensures forall l: Place, k :: 0 <= k < |Items(l)| ==> Items(l)[k] in threads
    {
      forall l: Place, k | 0 <= k < |Items(l)| ensures Items(l)[k] in threads {
        var t := Items(l)[k];
        assert t in Items(l) && t in Set(Items(l));
        assert l.Ready? ==> t in run.Threads();
      }
      hide R.RunQueues.Valid, SleepQueue.Valid, WaitQueue.Valid;
    }

    twostate lemma OnlyRun(p: nat)
      requires unchanged(sleep) && unchanged(waits)
      requires forall q :: 0 <= q < |run.queues| && q != p ==> run.queues[q].items == old(run.queues[q].items)
      ensures forall l: Place :: l != Ready(p) ==> Items(l) == old(Items(l))
    {
    }

    method PushReady(t: Thread)
      requires Sound() && t in threads && t !in run.Threads() && t !in Items(Asleep) && t.priority < PRIORITIES
      modifies run.queues, t`next, t`prev, t`state, threads`prev
      ensures t.state == READY && Sound() && Items(Ready(t.priority)) == [t] + old(Items(Ready(t.priority)))
      ensures forall l: Place :: l != Ready(t.priority) ==> Items(l) == old(Items(l))
    {
      hide R.RunQueues.Valid, R.RunQueues.Threads, SleepSound, WaitSound;
      RunSize();
      run.Enqueue(t);
      t.state := READY;
      OnlyRun(t.priority);
    }

    method PopReady() returns (t: Thread?, ghost top: int)
      requires Sound() && run.Threads() !! Set(Items(Asleep))
      modifies run.queues, threads`next, threads`prev
      ensures Sound() && -1 <= top < PRIORITIES && (t == null <==> top < 0)
      ensures forall p: nat :: top < p < PRIORITIES ==> old(Items(Ready(p))) == []
      ensures top >= 0 ==> old(Items(Ready(top))) != [] && t == old(Items(Ready(top)))[0] && t in threads
      ensures top >= 0 ==> Items(Ready(top)) == Cut(old(Items(Ready(top))), 0)
      ensures forall l: Place :: (top >= 0 ==> l != Ready(top)) ==> Items(l) == old(Items(l))
    {
      hide R.RunQueues.Valid, R.RunQueues.Threads, SleepSound, WaitSound, Cut;
      RunSize();
      Members();
      t, top := run.PickNext();
      if top >= 0 {
        CutFirst(old(run.queues[top].items));
        OnlyRun(top);
      } else {
        OnlyRun(PRIORITIES);
      }
    }

    method CutReady(t: Thread, ghost p: nat, ghost n: nat)
      requires Sound() && run.Threads() !! Set(Items(Asleep)) && n < |Items(Ready(p))| && t == Items(Ready(p))[n]
      requires t.priority == p
      modifies run.queues, threads`next, threads`prev
      ensures Sound() && Items(Ready(p)) == Cut(old(Items(Ready(p))), n)
      ensures forall l: Place :: l != Ready(p) ==> Items(l) == old(Items(l))
    {
      hide R.RunQueues.Valid, R.RunQueues.Threads, SleepSound, WaitSound, Cut;
      RunSize();
      run.Dequeue(t, n);
      OnlyRun(p);
    }

    lemma RunSize()
      requires Sound()
      ensures |run.queues| == PRIORITIES
    {
    }

    method InsertSleeper(t: Thread) returns (ghost n: nat)
      requires Sound() && run.Threads() !! Set(Items(Asleep)) && t in threads && t !in run.Threads()
      requires t !in Items(Asleep)
      modifies sleep, t`state, threads`next
      ensures t.state == SLEEPING && Sound() && n <= |old(Items(Asleep))| && old(Slot(Items(Asleep), n, t.wakeTick))
      ensures Items(Asleep) == Spliced(old(Items(Asleep)), n, t)
      ensures forall l: Place :: l != Asleep ==> Items(l) == old(Items(l))
    {
      hide RunSound, SleepQueue.Valid, WaitSound;
      n := sleep.Insert(t);
      t.state := SLEEPING;
    }

    method PopSleeper(now: nat) returns (t: Thread?)
      requires Sound() && run.Threads() !! Set(Items(Asleep))
      modifies sleep, threads`next
      ensures Sound()
      ensures t == null ==>
        Items(Asleep) == old(Items(Asleep)) && (Items(Asleep) == [] || Items(Asleep)[0].wakeTick > now)
      ensures t != null ==> old(Items(Asleep)) != [] && t == old(Items(Asleep))[0] && t.wakeTick <= now
      ensures t != null ==> Items(Asleep) == Cut(old(Items(Asleep)), 0)
      ensures forall l: Place :: l != Asleep ==> Items(l) == old(Items(l))
    {
      hide RunSound, SleepQueue.Valid, WaitSound, Cut;
      t := sleep.PopDue(now);
      if t != null {
        CutFirst(old(sleep.items));
      }
    }

    /** No thread waits in queue `w` and in another one. */
    ghost predicate WaitsApart(w: nat)
      requires w < |waits|
      reads waits
    {
      forall v :: 0 <= v < |waits| && v != w ==> Apart(waits[v].items, waits[w].items)
    }

    method PushWaiter(w: nat, t: Thread)
      requires Sound() && w < |waits| && WaitsApart(w) && t in threads
      requires forall v :: 0 <= v < |waits| ==> t !in Items(Place.Blocked(v))
      modifies waits[w], t`state, threads`waitNext
      ensures t.state == BLOCKED && Sound() && Items(Place.Blocked(w)) == old(Items(Place.Blocked(w))) + [t]
      ensures forall l: Place :: l != Place.Blocked(w) ==> Items(l) == old(Items(l))
    {
      hide RunSound, SleepSound, WaitQueue.Valid;
      forall v | 0 <= v < |waits| ensures t !in waits[v].items {
        assert t !in Items(Place.Blocked(v));
      }
      waits[w].Enqueue(t);
      t.state := BLOCKED;
    }

    method PopWaiter(w: nat) returns (t: Thread?)
      requires Sound() && w < |waits| && WaitsApart(w)
      modifies waits[w], threads`waitNext
      ensures Sound() && (t == null <==> old(Items(Place.Blocked(w))) == [])
      ensures t != null ==> t == old(Items(Place.Blocked(w)))[0]
      ensures t != null ==> Items(Place.Blocked(w)) == Cut(old(Items(Place.Blocked(w))), 0)
      ensures forall l: Place :: (t != null ==> l != Place.Blocked(w)) ==> Items(l) == old(Items(l))
    {
      hide RunSound, SleepSound, WaitQueue.Valid, Cut;
      WaitHead(w);
      t := waits[w].Dequeue();
      if t != null {
        CutFirst(old(waits[w].items));
        assert Set(waits[w].items) <= old(Set(waits[w].items));
      }
    }

    lemma WaitHead(w: nat)
      requires Sound() && w < |waits|
      ensures Waiting(waits[w].head, waits[w].items)
    {
    }

    // ----- and what they do to the view

    /** Every thread still shows what the view says once `t` has changed place. */
    twostate lemma Replaced(t: Thread)
      requires old(Fields()) && Roster() && t in threads
      requires forall u :: u in threads ==> InfoOf(u) == old(InfoOf(u)) && (u != t ==> u.state == old(u.state))
      requires view.info == old(view.info) && view.place == old(view.place)[t.id := view.At(t.id)]
      requires Shows(t.state, view.At(t.id))
      ensures Fields()
    {
      forall u | u in threads ensures Ties(u) {
        assert old(Ties(u));
      }
    }

    /** Every list is still the list of the view once list `l` has changed. */
    twostate lemma Relisted(l: Place)
      requires old(Lists()) && Backed(l)
      requires forall m: Place :: m.Listed() && m != l ==> Items(m) == old(Items(m))
      requires view.lists == old(view.lists)[l := view.List(l)]
      ensures Lists()
    {
      forall m: Place | m.Listed() ensures Backed(m) {
        assert old(Backed(m));
      }
    }

    /** Nothing has changed but links. */
    twostate lemma Untouched()
      requires old(Tied()) && Sound() && view == old(view) && current == old(current)
      requires forall m: Place :: Items(m) == old(Items(m))
      requires forall u :: u in threads ==> InfoOf(u) == old(InfoOf(u)) && u.state == old(u.state)
      ensures Tied()
    {
      forall m: Place | m.Listed() ensures Backed(m) {
        assert old(Backed(m));
      }
      forall u | u in threads ensures Ties(u) {
        assert old(Ties(u));
      }
      hide Sound, Items, InfoOf;
    }

    /** scheduler_enqueue, for a thread that is in no list. */
    method MakeReady(t: Thread)
      requires Tied() && Core(view) && t in threads && t.id in view.place && !view.place[t.id].Listed()
      modifies `view, run.queues, t`next, t`prev, t`state, threads`prev
      ensures Tied() && view == SchedSpec.Enqueue(old(view), t.id)
      ensures forall l: Place :: l != Ready(t.priority) ==> Items(l) == old(Items(l))
    {
      hide Core, Placed, Insert, Sound, Lists, Fields, Named, Names, Ids, Items, SchedSpec.Enqueue;
      Known(t);
      EnqueueIs(view, t.id);
      NotReady(t);
      Elsewhere(t, Asleep);
      Listing(Ready(t.priority));
      IdsPush(Items(Ready(t.priority)), t);
      PushReady(t);
      view := SchedSpec.Enqueue(view, t.id);
      Replaced(t);
      Relisted(Ready(t.priority));
    }

    lemma ReadyLists()
      requires Lists()
      ensures forall p: nat :: view.List(Ready(p)) == Ids(Items(Ready(p)))
    {
      forall p: nat ensures view.List(Ready(p)) == Ids(Items(Ready(p))) {
        Listing(Ready(p));
      }
    }

    /** scheduler_pick_next: the head of the highest non-empty run queue, or the idle thread. */
    method PickNext() returns (next: Thread)
      requires Tied() && Core(view)
      modifies `view, run.queues, threads`next, threads`prev
      ensures Tied() && next in threads
      ensures var s, p := old(view), Top(old(view), PRIORITIES);
        if p >= 0 then next.id == s.List(Ready(p))[0] && view == s.OutOf(Ready(p), 0) else next == idle && view == s
    {
      hide Core, Placed, Delete, Cut, Sound, Lists, Fields, Named, Names, Items, Top, InfoOf;
      CorePlaced(view);
      RunApart();
      ReadyLists();
      var t, top := PopReady();
      TopIs(view, top);
      if t == null {
        Untouched();
        return idle;
      }
      next := t;
      IdsCut(old(Items(Ready(top))), 0);
      OutOfIs(view, Ready(top), 0);
      view := view.OutOf(Ready(top), 0);
      Replaced(t);
      Relisted(Ready(top));
    }

    /** The unlinking of a ready thread in scheduler_preempt and scheduler_tick. */
    method UnReady(t: Thread, ghost p: nat, ghost n: nat)
      requires Tied() && Core(view) && n < |Items(Ready(p))| && t == Items(Ready(p))[n]
      modifies `view, run.queues, threads`next, threads`prev
      ensures Tied() && t in threads && n < |old(view).List(Ready(p))| && t.id == old(view).List(Ready(p))[n]
      ensures view == old(view).OutOf(Ready(p), n)
      ensures Items(Ready(p)) == Cut(old(Items(Ready(p))), n)
    {
      hide Core, Placed, Delete, Cut, Sound, Lists, Fields, Named, Names, Items, InfoOf;
      CorePlaced(view);
      RunApart();
      Members();
      Listing(Ready(p));
      ReadyPriority(t, p, n);
      IdsCut(Items(Ready(p)), n);
      OutOfIs(view, Ready(p), n);
      CutReady(t, p, n);
      view := view.OutOf(Ready(p), n);
      Replaced(t);
      Relisted(Ready(p));
    }

    lemma ReadyPriority(t: Thread, p: nat, n: nat)
      requires Sound() && n < |Items(Ready(p))| && t == Items(Ready(p))[n]
      ensures t.priority == p
    {
      assert t in run.queues[p].items;
    }

    /** The slot of the linked search is the slot of the transition system. */
    lemma SlotIs(tick: nat)
      requires Tied()
      ensures SlotFor(view, view.List(Asleep), tick) <= |Items(Asleep)|
      ensures forall n: nat :: Slot(Items(Asleep), n, tick) ==> n == SlotFor(view, view.List(Asleep), tick)
    {
      var q := view.List(Asleep);
      Listing(Asleep);
      Members();
      forall i | 0 <= i < |q| ensures view.Of(q[i]).wakeTick == Items(Asleep)[i].wakeTick {
        assert Ties(Items(Asleep)[i]);
      }
      assert SortedBy(view, q);
      SlotForIs(view, q, tick);
      var k, z := SlotFor(view, q, tick), Items(Asleep);
      forall n: nat | Slot(z, n, tick) ensures n == k {
        assert n < |z| ==> tick < z[n].wakeTick;
        assert k < |z| ==> tick < z[k].wakeTick;
      }
    }

    /** `t` joins the sleep queue. */
    method FallAsleep(t: Thread)
      requires Tied() && Core(view) && t in threads && t.id in view.place && !view.place[t.id].Listed()
      modifies `view, sleep, t`state, threads`next
      ensures Tied()
      ensures var n := SlotFor(old(view), old(view).List(Asleep), old(view).Of(t.id).wakeTick);
        n <= |old(view).List(Asleep)| && view == old(view).Into(t.id, Asleep, n)
    {
      hide Core, Placed, Insert, Spliced, Sound, Lists, Fields, Named, Names, Items, InfoOf, Slot, SlotFor;
      Known(t);
      RunApart();
      NotReady(t);
      Elsewhere(t, Asleep);
      Listing(Asleep);
      ghost var n := SlotFor(view, view.List(Asleep), t.wakeTick);
      SlotIs(t.wakeTick);
      ghost var k := InsertSleeper(t);
      IdsSpliced(old(Items(Asleep)), k, t);
      IntoIs(view, t.id, Asleep, n);
      view := view.Into(t.id, Asleep, n);
      Replaced(t);
      Relisted(Asleep);
    }

    /** One round of scheduler_wake_sleeping: the first sleeper leaves if its tick has come. */
    method TakeDue(now: nat) returns (t: Thread?)
      requires Tied() && Core(view)
      modifies `view, sleep, threads`next
      ensures Tied()
      ensures var s, q := old(view), old(view).List(Asleep);
        if t == null then view == s && (q == [] || s.Of(q[0]).wakeTick > now)
        else t in threads && q != [] && t.id == q[0] && s.Of(q[0]).wakeTick <= now && view == s.OutOf(Asleep, 0)
    {
      hide Core, Placed, Delete, Cut, Sound, Lists, Fields, Named, Names, Items, InfoOf;
      CorePlaced(view);
      RunApart();
      Members();
      Listing(Asleep);
      if Items(Asleep) != [] {
        Known(Items(Asleep)[0]);
      }
      t := PopSleeper(now);
      if t == null {
        Untouched();
        return;
      }
      IdsCut(old(Items(Asleep)), 0);
      OutOfIs(view, Asleep, 0);
      view := view.OutOf(Asleep, 0);
      Replaced(t);
      Relisted(Asleep);
    }

    lemma WaitersApart(w: nat)
      requires Tied() && Placed(view) && w < |waits|
      ensures WaitsApart(w)
    {
      forall v, t | 0 <= v < |waits| && v != w && t in waits[v].items ensures t !in waits[w].items {
        InPlace(Place.Blocked(v), t);
        Elsewhere(t, Place.Blocked(w));
      }
    }

    lemma InPlace(l: Place, t: Thread)
      requires Tied() && Placed(view) && l.Listed() && t in Items(l)
      ensures t in threads && view.At(t.id) == l
    {
      Members();
      Listing(l);
      assert Holds(view, l);
      var k :| 0 <= k < |Items(l)| && Items(l)[k] == t;
      assert view.List(l)[k] == t.id;
    }

    /** wait_queue_enqueue_locked. */
    method JoinWait(w: nat, t: Thread)
      requires Tied() && Core(view) && t in threads && t.id in view.place && !view.place[t.id].Listed() && w < |waits|
      modifies `view, waits[w], t`state, threads`waitNext
      ensures Tied() && view == old(view).Into(t.id, Place.Blocked(w), |old(view).List(Place.Blocked(w))|)
    {
      hide Core, Placed, Insert, Sound, Lists, Fields, Named, Names, Items, InfoOf, WaitsApart;
      var l := Place.Blocked(w);
      Known(t);
      WaitersApart(w);
      forall v | 0 <= v < |waits| ensures t !in Items(Place.Blocked(v)) {
        Elsewhere(t, Place.Blocked(v));
      }
      Listing(l);
      IdsAppend(Items(l), t);
      IntoIs(view, t.id, l, |view.List(l)|);
      PushWaiter(w, t);
      view := view.Into(t.id, l, |view.List(l)|);
      Replaced(t);
      Relisted(l);
    }

    /** wait_queue_dequeue_locked. */
    method LeaveWait(w: nat) returns (t: Thread?)
      requires Tied() && Core(view) && w < |waits|
      modifies `view, waits[w], threads`waitNext
      ensures Tied()
      ensures var s, q := old(view), old(view).List(Place.Blocked(w));
        if t == null then view == s && q == []
        else t in threads && q != [] && t.id == q[0] && view == s.OutOf(Place.Blocked(w), 0)
    {
      hide Core, Placed, Delete, Cut, Sound, Lists, Fields, Named, Names, Items, InfoOf, WaitsApart;
      var l := Place.Blocked(w);
      CorePlaced(view);
      WaitersApart(w);
      Members();
      Listing(l);
      t := PopWaiter(w);
      if t == null {
        Untouched();
        return;
      }
      IdsCut(old(Items(l)), 0);
      OutOfIs(view, l, 0);
      view := view.OutOf(l, 0);
      Replaced(t);
      Relisted(l);
    }

    // ----- the fields of one thread

    /** Every thread still shows what the view says once fields of `t` have changed. */
    twostate lemma Amended(t: Thread)
      requires old(Tied()) && Sound() && t in threads && t.state == old(t.state) && unchanged(`current)
      requires forall u :: u in threads && u != t ==> InfoOf(u) == old(InfoOf(u)) && u.state == old(u.state)
      requires forall m: Place :: Items(m) == old(Items(m))
      requires view == old(view).With(t.id, InfoOf(t))
      ensures Tied()
    {
      hide Sound, Items, InfoOf, Names, Ids;
      forall m: Place | m.Listed() ensures Backed(m) {
        assert old(Backed(m));
      }
      forall u | u in threads ensures Ties(u) {
        assert old(Ties(u)) && old(Ties(t));
      }
    }

    /** The demotion of a boosted thread that gives up the processor. */
    method Demote(t: Thread)
      requires Tied() && Core(view) && t in threads && !view.At(t.id).Ready?
      modifies `view, t`boosted, t`priority
      ensures Tied() && view == old(view).With(t.id, Demoted(old(view).Of(t.id)))
    {
      hide Core, Placed, SleepSound, WaitSound, RunSound, Lists, Fields, Named, Names, Items;
      Known(t);
      NotReady(t);
      if t.boosted {
        t.boosted := false;
        t.priority := NiceToPriority(t.nice);
      }
      view := view.With(t.id, InfoOf(t));
      Amended(t);
    }

    method StampWait(t: Thread, now: nat)
      requires Tied() && Core(view) && t in threads
      modifies `view, t`waitStart
      ensures Tied() && view == old(view).With(t.id, old(view).Of(t.id).(waitStart := now))
    {
      hide Core, Placed, Sound, Lists, Fields, Named, Names, Items;
      Known(t);
      t.waitStart := now;
      view := view.With(t.id, InfoOf(t));
      Amended(t);
    }

    method SetSlice(t: Thread, slice: nat)
      requires Tied() && Core(view) && t in threads
      modifies `view, t`slice
      ensures Tied() && view == old(view).With(t.id, old(view).Of(t.id).(slice := slice))
    {
      hide Core, Placed, Sound, Lists, Fields, Named, Names, Items;
      Known(t);
      t.slice := slice;
      view := view.With(t.id, InfoOf(t));
      Amended(t);
    }

    method SetWake(t: Thread, tick: nat)
      requires Tied() && Core(view) && t in threads && view.At(t.id) != Asleep
      modifies `view, t`wakeTick
      ensures Tied() && view == old(view).With(t.id, old(view).Of(t.id).(wakeTick := tick))
    {
      hide Core, Placed, SleepSound, WaitSound, RunSound, Lists, Fields, Named, Names;
      Known(t);
      Elsewhere(t, Asleep);
      t.wakeTick := tick;
      view := view.With(t.id, InfoOf(t));
      Amended(t);
    }

    /** The boost of a thread that has been taken out of its run queue. */
    method Promote(t: Thread, now: nat)
      requires Tied() && Core(view) && t in threads && !view.At(t.id).Ready?
      modifies `view, t`boosted, t`priority, t`waitStart
      ensures Tied()
      ensures view == old(view).With(t.id, old(view).Of(t.id).(priority := UI, boosted := true, waitStart := now))
      ensures t.priority == UI
    {
      hide Core, Placed, SleepSound, WaitSound, RunSound, Lists, Fields, Named, Names, Items;
      Known(t);
      NotReady(t);
      t.priority, t.boosted, t.waitStart := UI, true, now;
      view := view.With(t.id, InfoOf(t));
      Amended(t);
    }

    /** The current thread gives up the processor. */
    method StepDown()
      requires Tied() && Core(view) && !view.At(current.id).Listed()
      modifies `view, current`state
      ensures Tied() && view == old(view).SetPlace(current.id, Moving)
    {
      hide Core, Placed, Sound, Lists, Fields, Named, Names, Items, InfoOf;
      current.state := READY;
      view := view.SetPlace(current.id, Moving);
      Moved(current);
    }

    /** A thread that is in no list has changed place without entering one. */
    twostate lemma Moved(t: Thread)
      requires old(Tied()) && Sound() && Roster() && t in threads && Shows(t.state, view.At(t.id))
      requires forall u :: u in threads ==> InfoOf(u) == old(InfoOf(u)) && (u != t ==> u.state == old(u.state))
      requires forall m: Place :: Items(m) == old(Items(m))
      requires view.info == old(view.info) && view.lists == old(view.lists)
      requires view.place == old(view.place)[t.id := view.At(t.id)]
      ensures Tied()
    {
      Replaced(t);
      forall m: Place | m.Listed() ensures Backed(m) {
        assert old(Backed(m));
      }
      hide Sound, Items, InfoOf, Fields, Roster;
    }

    /** The parked idle thread is chosen. */
    ghost method Unpark()
      requires Tied() && Core(view) && view.At(idle.id) == Parked
      modifies `view
      ensures Tied() && view == old(view).SetPlace(idle.id, Moving)
    {
      hide Core, Placed, Sound, Lists, Fields, Named, Names, Items, InfoOf;
      view := view.SetPlace(idle.id, Moving);
      Moved(idle);
    }

    /** `next`, which is in no list, becomes the current thread. */
    method Start(next: Thread)
      requires Tied() && Core(view) && next in threads && view.At(next.id) == Moving
      modifies `view, `current, next`state
      ensures Tied() && view == old(view).(current := next.id).SetPlace(next.id, Place.Running) && current == next
    {
      hide Core, Placed, Sound, Lists, Fields, Named, Names, Items, InfoOf;
      next.state := RUNNING;
      current := next;
      view := view.(current := next.id).SetPlace(next.id, Place.Running);
      Moved(next);
    }

    // ----- the operations

    /** The first half of a switch: demote the current thread and, if it can still run, queue it again. */
    method Requeue(now: nat)
      requires Tied() && Core(view)
      requires var l := view.At(view.current); l == Place.Running || l == Asleep || l.Blocked?
      modifies `view, run.queues, threads
      ensures Tied() && view == SchedSpec.Requeue(old(view), now) && current == old(current)
    {
      hide Tied, Core, SchedSpec.Enqueue;
      CurrentKnown();
      var c := current;
      ghost var s := view;
      WithCore(view, c.id, Demoted(view.Of(c.id)));
      Demote(c);
      if c.state == RUNNING || c.state == READY {
        ghost var i := view.Of(c.id).(waitStart := now);
        WithCore(view, c.id, i);
        StampWait(c, now);
        SetPlaceCore(view, c.id, Moving);
        StepDown();
        MakeReady(c);
      }
    }

    lemma CurrentKnown()
      requires Tied() && Core(view)
      ensures current in threads && current.id == view.current && current.id in view.place && current.id in view.info
      ensures Shows(current.state, view.At(current.id)) && idle in threads && idle.id == view.idle
      ensures view.Of(current.id).priority < PRIORITIES && InfoOf(current) == view.Of(current.id)
    {
      Known(current);
    }

    lemma SameThread(t: Thread)
      requires Tied() && t in threads
      ensures t == current <==> t.id == view.current
    {
    }

    /** Hand the processor to `next`: the second half of scheduler_schedule and scheduler_preempt. */
    method SwitchTo(next: Thread, now: nat)
      requires Tied() && next in threads && Leaving(view, next.id)
      modifies `view, `current, run.queues, threads
      ensures Tied() && view == Switch(old(view), next.id, now) && current == next
    {
      hide Tied, Core, SchedSpec.Requeue, Back;
      CoreKeys(view);
      RequeueKeeps(view, now);
      Requeue(now);
      Start(next);
    }

    /** scheduler_schedule. */
    method Schedule(now: nat)
      requires Tied() && Poised(view)
      modifies `view, `current, run.queues, threads
      ensures Valid() && view == SchedSpec.Schedule(old(view), now)
      ensures var s, p := old(view), Top(old(view), PRIORITIES);
        view.current == if p >= 0 then s.List(Ready(p))[0] else s.idle
    {
      hide Tied, Inv, Core, Switch, Scheduled, Top, Leaving, Poised;
      ScheduleKeeps(view, now);
      PoisedCore(view);
      CurrentKnown();
      ghost var p := Top(view, PRIORITIES);
      if p >= 0 {
        TakeReady(view, p, 0);
        LeavingOther(view.OutOf(Ready(p), 0), view.List(Ready(p))[0]);
      } else if view.idle != view.current {
        IdleParked(view);
        SetPlaceCore(view, view.idle, Moving);
        IdleLeaving(view, view.SetPlace(view.idle, Moving));
      }
      var next := PickNext();
      SameThread(next);
      if next == current {
        return;
      }
      if p < 0 {
        Unpark();
      }
      SwitchTo(next, now);
    }

    /** thread_sleep_ticks. */
    method SleepTicks(ticks: nat, now: nat)
      requires Valid() && current != idle
      modifies `view, `current, run.queues, sleep, threads
      ensures Valid() && view == Step(old(view), Event.Sleep(ticks, now))
    {
      hide Tied, Inv, Core, Poised, SchedSpec.Schedule, SlotFor, Scheduled, Top;
      if ticks == 0 {
        return;
      }
      ghost var s := view;
      var tick := (now + ticks) % WORD;
      InvCore(view);
      CurrentKnown();
      SameThread(idle);
      ToSleepPoised(view, tick);
      WithCore(view, view.current, view.Of(view.current).(wakeTick := tick));
      SetWake(current, tick);
      FallAsleep(current);
      assert view == ToSleep(s, tick);
      Schedule(now);
    }

    /** wait_queue_wait once its predicate is false: join the wait queue and reschedule. */
    method Block(w: nat, now: nat)
      requires Valid() && current != idle && w < |waits|
      modifies `view, `current, run.queues, waits, threads
      ensures Valid() && view == Step(old(view), Event.Block(w, now))
    {
      hide Tied, Inv, Core, Poised, SchedSpec.Schedule, Scheduled, Top;
      InvCore(view);
      CurrentKnown();
      SameThread(idle);
      ToBlockPoised(view, w);
      JoinWait(w, current);
      Schedule(now);
    }

    /** scheduler_wake_sleeping. */
    method WakeSleeping(now: nat)
      requires Valid()
      modifies `view, run.queues, sleep, threads
      ensures Valid() && view == WakeDue(old(view), now)
    {
      hide Tied, Inv, Core, Insert, SchedSpec.Enqueue;
      InvCore(view);
      var t := TakeDue(now);
      ghost var s := old(view);
      while t != null
        invariant Tied() && Inv(s) && WakeDue(s, now) == WakeDue(old(view), now)
        invariant var q := s.List(Asleep);
          if t == null then view == s && (q == [] || s.Of(q[0]).wakeTick > now)
          else t in threads && q != [] && t.id == q[0] && s.Of(q[0]).wakeTick <= now && view == s.OutOf(Asleep, 0)
        decreases |s.List(Asleep)|
      {
        WokenKeeps(s, Asleep, 0);
        InvCore(s);
        OutOfCore(s, Asleep, 0);
        MakeReady(t);
        s := view;
        InvCore(s);
        t := TakeDue(now);
      }
    }

    /** wait_queue_wake_one. */
    method WakeOne(w: nat)
      requires Valid() && w < |waits|
      modifies `view, run.queues, waits, threads
      ensures Valid() && view == SchedSpec.WakeOne(old(view), w)
    {
      hide Tied, Inv, Core, Insert, SchedSpec.Enqueue;
      ghost var s := view;
      InvCore(s);
      var t := LeaveWait(w);
      if t != null {
        WokenKeeps(s, Place.Blocked(w), 0);
        OutOfCore(s, Place.Blocked(w), 0);
        MakeReady(t);
      }
    }

    /** wait_queue_wake_all. */
    method WakeAll(w: nat)
      requires Valid() && w < |waits|
      modifies `view, run.queues, waits, threads
      ensures Valid() && view == SchedSpec.WakeAll(old(view), w)
    {
      hide Tied, Inv, Core, Insert, SchedSpec.Enqueue;
      ghost var s := view;
      InvCore(s);
      var t := LeaveWait(w);
      while t != null
        invariant Tied() && Inv(s) && SchedSpec.WakeAll(s, w) == SchedSpec.WakeAll(old(view), w)
        invariant var q := s.List(Place.Blocked(w));
          if t == null then view == s && q == []
          else t in threads && q != [] && t.id == q[0] && view == s.OutOf(Place.Blocked(w), 0)
        decreases |s.List(Place.Blocked(w))|
      {
        WokenKeeps(s, Place.Blocked(w), 0);
        InvCore(s);
        OutOfCore(s, Place.Blocked(w), 0);
        MakeReady(t);
        s := view;
        InvCore(s);
        t := LeaveWait(w);
      }
    }

    method TickSlice()
      requires Valid()
      modifies `view, threads
      ensures Valid() && view == SliceTick(old(view)) && current == old(current)
    {
      hide Tied, Inv, Core;
      InvCore(view);
      SliceKeeps(view);
      CurrentKnown();
      SameThread(idle);
      if current != idle && current.slice > 0 {
        SetSlice(current, current.slice - 1);
      }
    }

    /** The linked run queue read from its head. */
    lemma Walk(p: nat, n: nat)
      requires Valid() && p < PRIORITIES
      ensures |run.queues| == PRIORITIES && |Items(Ready(p))| == |view.List(Ready(p))|
      ensures run.queues[p].head == ThreadLists.At(Items(Ready(p)), 0)
      ensures n < |Items(Ready(p))| ==> var t := Items(Ready(p))[n];
        && t.next == ThreadLists.At(Items(Ready(p)), n + 1) && t in threads
        && t.id == view.List(Ready(p))[n] && InfoOf(t) == view.Of(t.id) && t.id != view.current
    {
      Listing(Ready(p));
      RunSize();
      assert run.queues[p].Valid();
      run.queues[p].FrontAndOrder();
      if n < |Items(Ready(p))| {
        run.queues[p].Successor(n);
        Members();
        Known(Items(Ready(p))[n]);
        InPlace(Ready(p), Items(Ready(p))[n]);
      }
    }

    /** The aging loop over one run queue, with the next thread saved before the current one moves. */
    method AgeQueue(p: nat, now: nat)
      requires Valid() && p < UI
      modifies `view, run.queues, threads
      ensures Valid() && view == Age(old(view), p, 0, now)
    {
      hide Tied, Inv, Core, Boost;
      InvCore(view);
      Walk(p, 0);
      var t := run.queues[p].head;
      ghost var n := 0;
      while t != null
        invariant Tied() && Inv(view) && Age(view, p, n, now) == Age(old(view), p, 0, now)
        invariant n <= |Items(Ready(p))| && t == ThreadLists.At(Items(Ready(p)), n)
        decreases |Items(Ready(p))| - n
      {
        InvCore(view);
        Walk(p, n);
        var next := t.next;
        if !t.boosted && (now - t.waitStart) % WORD >= AGING_THRESHOLD {
          CutAt(Items(Ready(p)), n, n);
          BoostThread(t, p, n, now);
        } else {
          n := n + 1;
        }
        t := next;
      }
      InvCore(view);
      Walk(p, 0);
    }

    method BoostThread(t: Thread, p: nat, ghost n: nat, now: nat)
      requires Valid() && p < UI && n < |Items(Ready(p))| && t == Items(Ready(p))[n] && Starved(view.Of(t.id), now)
      modifies `view, run.queues, threads
      ensures Valid() && n < |old(view).List(Ready(p))| && view == Boost(old(view), p, n, now)
      ensures Items(Ready(p)) == Cut(old(Items(Ready(p))), n)
    {
      hide Tied, Inv, Core, Insert, Delete, Cut, Items, InfoOf;
      InvCore(view);
      Walk(p, n);
      BoostKeeps(view, p, n, now);
      OutOfCore(view, Ready(p), n);
      UnReady(t, p, n);
      WithCore(view, t.id, view.Of(t.id).(priority := UI, boosted := true, waitStart := now));
      Promote(t, now);
      MakeReady(t);
    }

    /** scheduler_tick. */
    method Tick(now: nat)
      requires Valid()
      modifies `view, run.queues, sleep, threads
      ensures Valid() && view == SchedSpec.Tick(old(view), now)
    {
      hide Tied, Inv, WakeDue, SliceTick, Age;
      WakeSleeping(now);
      TickSlice();
      ghost var s := view;
      for p := 0 to UI
        invariant Valid() && AgeFrom(view, p, now) == AgeFrom(s, 0, now)
      {
        AgeQueue(p, now);
      }
    }

    /** The walk of scheduler_preempt along one run queue: the first kernel thread, or null. */
    method KernelIn(p: nat) returns (t: Thread?, ghost n: nat)
      requires Valid() && p < PRIORITIES
      ensures |Items(Ready(p))| == |view.List(Ready(p))| && n == FirstKernel(view, view.List(Ready(p)))
      ensures t == ThreadLists.At(Items(Ready(p)), n)
    {
      hide Tied, Inv;
      ghost var q := view.List(Ready(p));
      n := 0;
      Walk(p, 0);
      t := run.queues[p].head;
      assert q[0..] == q;
      while t != null && !(t.kernel && t != current)
        invariant n <= |q| && |Items(Ready(p))| == |q| && t == ThreadLists.At(Items(Ready(p)), n)
        invariant FirstKernel(view, q) == n + FirstKernel(view, q[n..])
        decreases |q| - n
      {
        Walk(p, n);
        SameThread(t);
        assert q[n..][1..] == q[n + 1..];
        t, n := t.next, n + 1;
      }
      if t != null {
        Walk(p, n);
      }
    }

    /** The search of scheduler_preempt over the run queues from the highest down. */
    method FindKernel() returns (t: Thread?, ghost p: int, ghost n: nat)
      requires Valid()
      ensures p == TopKernel(view, PRIORITIES) && (t == null <==> p < 0)
      ensures p >= 0 ==> n == FirstKernel(view, view.List(Ready(p))) < |Items(Ready(p))| && t == Items(Ready(p))[n]
    {
      hide Tied, Inv, FirstKernel, Items;
      var m := PRIORITIES;
      while m > 0
        invariant 0 <= m <= PRIORITIES && TopKernel(view, PRIORITIES) == TopKernel(view, m)
      {
        t, n := KernelIn(m - 1);
        if t != null {
          return t, m - 1, n;
        }
        m := m - 1;
      }
      return null, -1, 0;
    }

    /** scheduler_preempt; `user` says whether the interrupt came from user mode. It switches if and only if
        the running thread has not disabled preemption, is the idle thread or uses up its slice, and some
        run queue has a kernel thread once the due sleepers are awake; the first one of the highest such
        queue runs then. */
    method Preempt(now: nat, user: bool)
      requires Valid()
      modifies `view, `current, run.queues, sleep, threads
      ensures Valid() && view == SchedSpec.Preempt(old(view), now, user)
      ensures user ==> view == old(view) && current == old(current)
      ensures !user ==> var next := L.KernelNext(WakeDue(old(view), now));
        && (current != old(current) <==>
              old(current.preemptCount) == 0 && (old(current) == idle || old(current.slice) <= 1) && next.Some?)
        && (current != old(current) ==> next == Some(current.id) && current.slice == TimeSlice(current.priority))
    {
      hide Tied, Inv, Core, WakeDue, SchedSpec.Preempt, L.KernelNext, TimeSlice;
      ghost var s, c := view, current;
      InvCore(s);
      CurrentKnown();
      SameThread(idle);
      L.PreemptsIff(s, now);
      PreemptStep(now, user);
      InvCore(view);
      SameThread(c);
      CurrentKnown();
    }

    method PreemptStep(now: nat, user: bool)
      requires Valid()
      modifies `view, `current, run.queues, sleep, threads
      ensures Valid() && view == SchedSpec.Preempt(old(view), now, user)
    {
      hide Tied, Inv, WakeDue, SliceTick, TakeOver;
      if user {
        return;
      }
      WakeSleeping(now);
      TickSlice();
      InvCore(view);
      CurrentKnown();
      SameThread(idle);
      if current.preemptCount > 0 || (current.slice > 0 && current != idle) {
        return;
      }
      PreemptNow(now);
    }

    method PreemptNow(now: nat)
      requires Valid()
      modifies `view, `current, run.queues, threads
      ensures Valid() && view == TakeOver(old(view), now)
    {
      hide Tied, Inv, Core, Switch, TopKernel, FirstKernel, QueueAfter, Scheduled, Leaving, Items;
      ghost var s := view;
      InvCore(view);
      CurrentKnown();
      TakeOverKeeps(view, now);
      var next, p, n := FindKernel();
      if next == null {
        if current.slice == 0 {
          SetSlice(current, DEFAULT_SLICE);
        }
        return;
      }
      Walk(p, n);
      InvIsPoised(view);
      TakeReady(view, p, n);
      UnReady(next, p, n);
      SwitchKeeps(view, next.id, now);
      SwitchTo(next, now);
      InvCore(view);
      CurrentKnown();
      SetSlice(next, TimeSlice(next.priority));
    }

    // ----- runs

    /** The event names a wait queue that there is. */
    predicate Waits(e: Event) { e.Block? || e.WakeFirst? || e.WakeEvery? ==> e.w < |waits| }

    method Perform(e: Event)
      requires Valid() && Enabled(view, e) && Waits(e)
      modifies this, run.queues, sleep, waits, threads
      ensures Valid() && view == Step(old(view), e)
    {
      hide Tied, Inv, SchedSpec.Schedule, SchedSpec.WakeOne, SchedSpec.WakeAll, SchedSpec.Tick, SchedSpec.Preempt, Top;
      InvIsPoised(view);
      InvCore(view);
      CurrentKnown();
      SameThread(idle);
      match e {
        case Yield(now) => Schedule(now);
        case Sleep(ticks, now) => SleepTicks(ticks, now);
        case Block(w, now) => Block(w, now);
        case WakeFirst(w) => WakeOne(w);
        case WakeEvery(w) => WakeAll(w);
        case TimerTick(now) => Tick(now);
        case Interrupt(now, user) => Preempt(now, user);
      }
    }

    /** Any run of the scheduler on its linked threads is the run of the transition system. */
    method Run(es: seq<Event>)
      requires Valid() && Runs(view, es) && forall e :: e in es ==> Waits(e)
      modifies this, run.queues, sleep, waits, threads
      ensures Valid() && view == After(old(view), es)
    {
      hide Tied, Inv, Step, Enabled;
      assert es[..|es|] == es;
      for n := 0 to |es|
        invariant Valid() && view == After(old(view), es[..n])
      {
        RunsPrefix(old(view), es, n + 1);
        assert es[..n + 1][..n] == es[..n] && es[..n + 1][n] == es[n];
        Perform(es[n]);
      }
    }

    lemma Once(l: Place)
      requires Tied() && Placed(view) && l.Listed()
      ensures Distinct(Items(l))
    {
      assert Holds(view, l);
      Listing(l);
      forall i, j | 0 <= i < j < |Items(l)| ensures Items(l)[i] != Items(l)[j] {
        assert view.List(l)[i] != view.List(l)[j];
      }
      hide Tied, Items;
    }

    lemma There(t: Thread, l: Place)
      requires Tied() && Placed(view) && t in threads && t.id in view.place && view.At(t.id) == l && l.Listed()
      ensures t in Items(l)
    {
      assert Holds(view, l);
      Listing(l);
      Members();
      var k :| 0 <= k < |view.List(l)| && view.List(l)[k] == t.id;
      assert Items(l)[k].id == t.id;
      hide Sound, Items, Lists, Fields;
    }

    /** The run queues, the sleep queue and the wait queues have no thread in common. */
    lemma ListsApart(l: Place, m: Place)
      requires Valid() && l.Listed() && m.Listed() && l != m
      ensures Apart(Items(l), Items(m))
    {
      InvCore(view);
      CorePlaced(view);
      forall t | t in Items(l) ensures t !in Items(m) {
        InPlace(l, t);
        Elsewhere(t, m);
      }
      hide Tied, Inv, Placed, Items;
    }

    /** The partition on the objects: each thread is the one that runs, or is linked into exactly one
        list and there once, or is the parked idle thread; its state field says which. */
    lemma Everywhere(t: Thread)
      requires Valid() && t in threads
      ensures var l := view.At(t.id);
        && (t == current <==> l == Place.Running) && l != Moving && (l == Parked ==> t == idle) && Shows(t.state, l)
        && (forall m: Place :: m.Listed() ==> Distinct(Items(m)) && (t in Items(m) <==> m == l))
        && (l.Ready? ==> l.p == t.priority < PRIORITIES)
    {
      InvCore(view);
      Known(t);
      SameThread(t);
      forall m: Place | m.Listed() ensures Distinct(Items(m)) && (t in Items(m) <==> m == view.At(t.id)) {
        Once(m);
        if m == view.At(t.id) {
          There(t, m);
        } else {
          Elsewhere(t, m);
        }
      }
      hide Tied, Inv, Items;
    }
  }

  lemma {:induction false} RunsPrefix(s: State, es: seq<Event>, n: nat)
    requires Runs(s, es) && n <= |es|
    ensures Runs(s, es[..n])
  {
    if n == |es| {
      assert es[..n] == es;
    } else {
      RunsPrefix(s, es[..|es| - 1], n);
      assert es[..|es| - 1][..n] == es[..n];
    }
    hide Enabled, After;
  }
}
