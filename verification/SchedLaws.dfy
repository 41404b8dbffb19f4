/** What each operation of the scheduler does, thread by thread: who wakes, who is switched to and on
    what terms, who is boosted, and when an interrupt preempts. */
module SchedLaws {
  import opened Basics
  import opened Constants
  import opened SchedSpec

  // ----- the tables

  /** A nicer thread never has the higher priority, and the levels change at -9, -4, 5 and 15. */
  lemma NiceLevels(a: int, b: int)
    ensures a <= b ==> NiceToPriority(a) >= NiceToPriority(b)
    ensures NiceToPriority(-10) == 4 && NiceToPriority(-9) == NiceToPriority(-5) == 3
    ensures NiceToPriority(-4) == NiceToPriority(4) == 2
    ensures NiceToPriority(5) == NiceToPriority(14) == 1 && NiceToPriority(15) == 0
  {
  }

  /** The higher the priority, the shorter the time slice, from twenty ticks down to five. */
  lemma SliceLevels(p: nat, q: nat)
    ensures p < q < 5 ==> TimeSlice(p) > TimeSlice(q)
    ensures TimeSlice(0) == 20 && TimeSlice(1) == 15 && TimeSlice(2) == 10 && TimeSlice(3) == 7 && TimeSlice(4) == 5
  {
  }

  // ----- waking

  /** A thread made ready goes to the head of the run queue of its priority; no other list changes. */
  lemma EnqueueFront(s: State, t: Tid)
    requires s.Of(t).priority < 5
    ensures var z, p := Enqueue(s, t), s.Of(t).priority;
      z.lists == s.lists[Ready(p) := [t] + s.List(Ready(p))] && z.place == s.place[t := Ready(p)] && z.info == s.info
  {
    InsertFront(s.List(Ready(s.Of(t).priority)), t);
  }

  /** wait_queue_wake_one makes the longest waiter ready, at the head of its run queue, and only that one. */
  lemma WakesLongestWaiter(s: State, w: nat)
    requires Inv(s)
    ensures var q, z := s.List(Blocked(w)), WakeOne(s, w);
      if q == [] then z == s
      else
        var t := q[0]; var p := s.Of(t).priority;
        && q == [t] + z.List(Blocked(w)) && z.List(Ready(p)) == [t] + s.List(Ready(p)) && z.info == s.info
        && z.place == s.place[t := Ready(p)] && z.current == s.current
        && forall l: Place :: l != Blocked(w) && l != Ready(p) ==> z.List(l) == s.List(l)
  {
    var q := s.List(Blocked(w));
    if q != [] {
      WokenKeeps(s, Blocked(w), 0);
      CoreKeys(s);
      var t, a := q[0], s.OutOf(Blocked(w), 0);
      hide Core, Insert;
      EnqueueFront(a, t);
      assert q == [t] + Delete(q, 0);
    }
  }

  lemma {:induction false} WakesAllWaiters(s: State, w: nat)
    requires Inv(s)
    ensures var z := WakeAll(s, w); z.info == s.info && z.current == s.current && z.place.Keys == s.place.Keys
    ensures forall t :: t in s.place ==>
      WakeAll(s, w).place[t] == if s.place[t] == Blocked(w) then Ready(s.Of(t).priority) else s.place[t]
    decreases |s.List(Blocked(w))|
  {
    if s.List(Blocked(w)) == [] {
      NobodyBlocked(s, w);
    } else {
      WokenKeeps(s, Blocked(w), 0);
      WakesAllWaiters(Woken(s, Blocked(w), 0), w);
    }
    hide Inv, Woken;
  }

  lemma NobodyBlocked(s: State, w: nat)
    requires Inv(s) && s.List(Blocked(w)) == []
    ensures forall t :: t in s.place ==> s.place[t] != Blocked(w)
  {
    assert Holds(s, Blocked(w));
  }

  // ----- switching

  /** A thread that gives up the processor loses its boost and returns to the priority of its nice
      value; if it is still runnable, it starts to wait now. */
  function GivenUp(s: State, now: nat): Info {
    var i := s.Of(s.current);
    Info(if i.boosted then NiceToPriority(i.nice) else i.priority, i.nice, false,
         if s.At(s.current) == Running then now else i.waitStart, i.wakeTick, i.kernel, i.slice, i.preemptCount)
  }

  lemma SwitchInfo(s: State, next: Tid, now: nat)
    requires Leaving(s, next)
    ensures Switch(s, next, now).info == s.info[s.current := GivenUp(s, now)]
  {
    RequeueKeeps(s, now);
    hide Core, Requeue;
  }

  /** scheduler_schedule, thread by thread. With every run queue empty the idle thread goes on; otherwise
      another thread runs, with its own time slice untouched, and only the old one changes. */
  lemma ScheduleEffect(s: State, now: nat)
    requires Poised(s)
    ensures var z, c := Schedule(s, now), s.current;
      if Top(s, PRIORITIES) < 0 && s.idle == c then z == s
      else
        && z.current != c && z.info == s.info[c := GivenUp(s, now)]
        && (s.place[c] == Running ==> var q := z.List(Ready(z.Of(c).priority)); q != [] && q[0] == c)
  {
    hide Core, Switch, Top, Rested, Switched, Leaving, GivenUp;
    CoreKeys(s);
    var p := Top(s, PRIORITIES);
    if p >= 0 {
      TakeReady(s, p, 0);
      OutOfCore(s, Ready(p), 0);
      LeftOver(s, s.OutOf(Ready(p), 0), s.List(Ready(p))[0], now);
    } else if s.idle != s.current {
      IdleParked(s);
      SetPlaceCore(s, s.idle, Moving);
      IdleLeaving(s, s.SetPlace(s.idle, Moving));
      LeftOver(s, s.SetPlace(s.idle, Moving), s.idle, now);
    }
  }

  lemma LeftOver(s: State, a: State, next: Tid, now: nat)
    requires Leaving(a, next) && a.info == s.info && a.current == s.current && a.At(a.current) == s.At(s.current)
    ensures var z, c := Switch(a, next, now), s.current;
      && z.current != c && z.info == s.info[c := GivenUp(s, now)]
      && (s.At(c) == Running ==> var q := z.List(Ready(z.Of(c).priority)); q != [] && q[0] == c)
  {
    SwitchKeeps(a, next, now);
    SwitchInfo(a, next, now);
    hide Core, Switch, Inv;
  }

  /** A blocked thread is last in its wait queue, and another one runs. */
  lemma BlocksLast(s: State, w: nat, now: nat)
    requires Inv(s) && s.current != s.idle
    ensures var z := Step(s, Block(w, now));
      && z.List(Blocked(w)) == s.List(Blocked(w)) + [s.current] && z.At(s.current) == Blocked(w)
      && z.current != s.current
  {
    hide Inv, Poised, Schedule, Core, ToBlock;
    ToBlockPoised(s, w);
    ToBlockLists(s, w);
    CurrentPlaced(s);
    ScheduleKeeps(ToBlock(s, w), now);
    NotCurrent(Schedule(ToBlock(s, w), now), s.current);
    WaitersKept(ToBlock(s, w), w, now);
  }

  lemma ToBlockLists(s: State, w: nat)
    ensures ToBlock(s, w).List(Blocked(w)) == s.List(Blocked(w)) + [s.current] && ToBlock(s, w).current == s.current
  {
  }

  /** Rescheduling leaves the wait queues alone. */
  lemma WaitersKept(s: State, w: nat, now: nat)
    requires Poised(s)
    ensures Schedule(s, now).List(Blocked(w)) == s.List(Blocked(w))
  {
    hide Core, Switch, Top, Rested, Leaving;
    CoreKeys(s);
    var p := Top(s, PRIORITIES);
    if p >= 0 {
      TakeReady(s, p, 0);
      SwitchKeeps(s.OutOf(Ready(p), 0), s.List(Ready(p))[0], now);
    } else if s.idle != s.current {
      IdleParked(s);
      SetPlaceCore(s, s.idle, Moving);
      IdleLeaving(s, s.SetPlace(s.idle, Moving));
      SwitchKeeps(s.SetPlace(s.idle, Moving), s.idle, now);
    }
  }

  // ----- the timer

  /** A hundred ticks of waiting without a boost, as long as the clock has not wrapped in between. */
  lemma StarvedAfter100(i: Info, now: nat)
    requires i.waitStart <= now < WORD
    ensures Starved(i, now) <==> !i.boosted && now - i.waitStart >= 100
  {
  }

  /** scheduler_tick, thread by thread: it boosts exactly the threads that wait in a run queue below the
      UI queue, those just woken included, and have waited long enough. */
  lemma TickBoosts(s: State, now: nat, t: Tid)
    requires Inv(s) && t in s.place
    ensures var a, z := SliceTick(WakeDue(s, now)), Tick(s, now);
      && t in a.place && t in z.place
      && if a.place[t].Ready? && a.place[t].p < 4 && Starved(a.Of(t), now)
         then z.place[t] == Ready(4) && z.Of(t) == a.Of(t).(priority := 4, boosted := true, waitStart := now)
         else z.place[t] == a.place[t] && z.Of(t) == a.Of(t)
  {
    hide Inv, AgeFrom, WakeDue, SliceTick;
    WakeDueKeeps(s, now);
    var a := SliceTick(WakeDue(s, now));
    SliceKeeps(WakeDue(s, now));
    AgeFromKeeps(a, 0, now);
    if a.place[t].Ready? {
      ReadyBound(a, t);
    }
    assert a.place[t].Ready? && a.place[t].p < UI ==> NoneStarved(Tick(s, now), a.place[t].p, now);
  }

  /** A boosted thread leaves its queue, the others in their order, and heads the UI queue. */
  lemma BoostFront(s: State, p: nat, n: nat, now: nat)
    requires n < |s.List(Ready(p))| && p < 4
    ensures var q, z := s.List(Ready(p)), Boost(s, p, n, now);
      && z.List(Ready(4)) == [q[n]] + s.List(Ready(4)) && z.List(Ready(p)) == q[..n] + q[n + 1..]
      && forall l: Place :: l != Ready(4) && l != Ready(p) ==> z.List(l) == s.List(l)
  {
    InsertFront(s.List(Ready(4)), s.List(Ready(p))[n]);
    hide Insert;
  }

  lemma ReadyBound(s: State, t: Tid)
    requires Inv(s) && t in s.place && s.place[t].Ready?
    ensures s.place[t].p < PRIORITIES
  {
  }

  /** The current thread's slice loses a tick, down to zero; nothing else about any thread changes, and
      the idle thread's slice does not run. */
  lemma SliceRuns(s: State)
    requires Inv(s)
    ensures var z, i := SliceTick(s), s.Of(s.current);
      && z.info == s.info[s.current := i.(slice := i.slice - if s.current == s.idle || i.slice == 0 then 0 else 1)]
      && z == s.(info := z.info)
  {
    CoreKeys(s);
    hide Core;
    assert s.info[s.current := s.Of(s.current)] == s.info;
  }

  /** The waiting time of a thread includes its sleep: one that last ran a hundred ticks ago is boosted
      by the very tick that wakes it. */
  lemma BoostedOnWaking(s: State, now: nat, t: Tid)
    requires Inv(s) && t in s.place && s.place[t] == Asleep && s.Of(t).wakeTick <= now && s.Of(t).priority < 4
    requires !s.Of(t).boosted && s.Of(t).waitStart + 100 <= now < WORD
    ensures Tick(s, now).At(t) == Ready(4)
  {
    hide Inv, Tick, WakeDue, SliceTick;
    WakeDueKeeps(s, now);
    SliceKeeps(WakeDue(s, now));
    TickBoosts(s, now, t);
    StarvedAfter100(s.Of(t), now);
  }

  // ----- preemption

  lemma {:induction false} SameFirstKernel(s: State, z: State, q: seq<Tid>)
    requires forall t :: z.Of(t).kernel == s.Of(t).kernel
    ensures FirstKernel(z, q) == FirstKernel(s, q)
  {
    if q != [] {
      SameFirstKernel(s, z, q[1..]);
    }
  }

  lemma {:induction false} SameTopKernel(s: State, z: State, n: nat)
    requires z.lists == s.lists && forall t :: z.Of(t).kernel == s.Of(t).kernel
    ensures TopKernel(z, n) == TopKernel(s, n)
  {
    if n > 0 {
      SameFirstKernel(s, z, s.List(Ready(n - 1)));
      SameTopKernel(s, z, n - 1);
    }
  }

  /** Running down the slice does not change which kernel thread is first. */
  lemma SliceKernels(s: State)
    ensures TopKernel(SliceTick(s), PRIORITIES) == TopKernel(s, PRIORITIES)
    ensures forall q :: FirstKernel(SliceTick(s), q) == FirstKernel(s, q)
  {
    SameTopKernel(s, SliceTick(s), PRIORITIES);
    forall q ensures FirstKernel(SliceTick(s), q) == FirstKernel(s, q) {
      SameFirstKernel(s, SliceTick(s), q);
    }
  }

  /** Thread `n` of run queue `p` is a kernel thread, with none before it and none in a higher queue. */
  ghost predicate Leads(s: State, p: nat, n: nat) {
    && p < 5 && n < |s.List(Ready(p))| && s.Of(s.List(Ready(p))[n]).kernel
    && (forall k :: 0 <= k < n ==> !s.Of(s.List(Ready(p))[k]).kernel)
    && (forall q, t :: p < q < 5 && t in s.List(Ready(q)) ==> !s.Of(t).kernel)
  }

  /** The kernel thread to run next: of the highest run queue that has one, the first. */
  function KernelNext(s: State): (r: Option<Tid>)
    ensures r == None <==> forall p, t :: 0 <= p < 5 && t in s.List(Ready(p)) ==> !s.Of(t).kernel
    ensures r.Some? ==> exists p: nat, n: nat :: Leads(s, p, n) && r.value == s.List(Ready(p))[n]
  {
    var p := TopKernel(s, PRIORITIES);
    if p < 0 then None else Some(s.List(Ready(p))[FirstKernel(s, s.List(Ready(p)))])
  }

  lemma ShieldedIff(s: State, now: nat)
    requires Inv(s)
    ensures var a := SliceTick(WakeDue(s, now)); a.current == s.current && (Shielded(a) <==>
        s.Of(s.current).preemptCount > 0 || (s.current != s.idle && s.Of(s.current).slice > 1))
  {
    hide Inv, WakeDue;
    WakeDueKeeps(s, now);
    SliceRuns(WakeDue(s, now));
  }

  /** scheduler_preempt switches if and only if the running thread has not disabled preemption, is the
      idle thread or uses up its slice with this tick, and, once the due sleepers are awake, some run
      queue has a kernel thread. The first one of the highest such queue then runs, with a fresh slice
      for its priority. From user mode nothing happens at all. */
  lemma PreemptsIff(s: State, now: nat)
    requires Inv(s)
    ensures Preempt(s, now, true) == s
    ensures var z, i, next := Preempt(s, now, false), s.Of(s.current), KernelNext(WakeDue(s, now));
      && (z.current != s.current <==> i.preemptCount == 0 && (s.current == s.idle || i.slice <= 1) && next.Some?)
      && (z.current != s.current ==>
            next == Some(z.current) && z.Of(z.current).slice == TimeSlice(z.Of(z.current).priority))
  {
    hide Inv, WakeDue, WokeDue, TakeOver, SliceTick, TopKernel, FirstKernel, Shielded, Scheduled, QueueAfter;
    var w := WakeDue(s, now);
    var a := SliceTick(w);
    WakeDueKeeps(s, now);
    SliceKeeps(w);
    SliceKernels(w);
    ShieldedIff(s, now);
    TakeOverKeeps(a, now);
    TakeOverSlice(a, now);
  }

  lemma TakeOverSlice(s: State, now: nat)
    requires Inv(s)
    ensures var z, p := TakeOver(s, now), TopKernel(s, PRIORITIES);
      if p >= 0 then z.current != s.current && z.Of(z.current).slice == TimeSlice(z.Of(z.current).priority)
      else z.Of(s.current).slice == if s.Of(s.current).slice == 0 then 10 else s.Of(s.current).slice
  {
    hide Core, Rested, Switched, Leaving, Poised, Requeue, TopKernel, FirstKernel;
    var p := TopKernel(s, PRIORITIES);
    if p >= 0 {
      InvIsPoised(s);
      var n := FirstKernel(s, s.List(Ready(p)));
      TakeReady(s, p, n);
      NextIsOther(s, s.OutOf(Ready(p), n), s.List(Ready(p))[n]);
    }
  }

  lemma NextIsOther(s: State, a: State, next: Tid)
    requires Leaving(a, next) && a.current == s.current
    ensures next != s.current
  {
  }

  /** When it does not switch, the slice loses a tick; one that is used up is refilled to ten, unless
      preemption is disabled. */
  lemma PreemptStays(s: State, now: nat)
    requires Inv(s)
    ensures var z, i := Preempt(s, now, false), s.Of(s.current);
      z.current == s.current ==>
        var left := if s.current == s.idle || i.slice == 0 then i.slice else i.slice - 1;
        z.Of(s.current).slice == if left == 0 && i.preemptCount == 0 then 10 else left
  {
    hide Inv, WakeDue, TakeOver, SliceTick, TopKernel, Scheduled, QueueAfter;
    var w := WakeDue(s, now);
    var a := SliceTick(w);
    WakeDueKeeps(s, now);
    SliceKeeps(w);
    SliceRuns(w);
    ShieldedIff(s, now);
    TakeOverKeeps(a, now);
    TakeOverSlice(a, now);
  }

  /** thread_sleep_ticks(0) returns at once. */
  lemma NoSleep(s: State, now: nat)
    ensures Step(s, Sleep(0, now)) == s
  {
  }
}
