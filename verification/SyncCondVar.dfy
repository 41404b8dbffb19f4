/** The condition variable together with its mutex, for kernel threads. */
module SyncCondVar {
  import opened Basics
  import opened SyncBase
  import M = SyncMutex

  /** Where a thread is inside condvar_wait: queued but still owning the mutex, in the loop that
      watches its own state, or locking the mutex again. */
  datatype Phase = Releasing | Looping | Locking

  /** `blocked` are the waiting threads whose state is THREAD_STATE_BLOCKED because of the condition;
      `entered` is how deeply each thread held the mutex when it began to wait. */
  datatype State = State(mutex: M.State, line: Line, phase: map<Tid, Phase>, blocked: set<Tid>, entered: map<Tid,
      nat>) {
    function Depth(t: Tid): nat { if t in entered then entered[t] else 0 }
  }

  datatype Event =
    Outer(e: M.Event) | Begin(t: Tid) | Release(t: Tid) | Check(t: Tid) | Relock(t: Tid) | Signal | Broadcast

  function Start(kind: M.Kind): State { State(M.Start(kind), NOBODY, map[], {}, map[]) }

  predicate In(s: State, t: Tid, p: Phase) { t in s.phase && s.phase[t] == p }

  /** condvar_wait is called with the mutex held; other mutex calls come from threads that are not
      inside it, and never wrap the recursion counter. */
  predicate Enabled(s: State, e: Event) {
    match e
    case Outer(m) => M.Enabled(s.mutex, m) && m.t !in s.phase && !M.Overflows(s.mutex, m)
    case Begin(t) => t !in s.phase && !s.mutex.line.Inside(t) && s.mutex.owner == Some(t)
    case Release(t) => In(s, t, Releasing)
    case Check(t) => In(s, t, Looping)
    case Relock(t) => In(s, t, Locking) && t !in s.mutex.line.queue
    case Signal => true
    case Broadcast => true
  }

  function Step(s: State, e: Event): State {
    match e
    case Outer(m) => s.(mutex := M.Step(s.mutex, m))
    case Begin(t) =>
      s.(line := s.line.Sleep(t), phase := s.phase[t := Releasing], blocked := s.blocked + {t},
         entered := s.entered[t := s.mutex.depth])
    case Release(t) => s.(mutex := M.Step(s.mutex, M.Unlock(t)), phase := s.phase[t := Looping])
    case Check(t) => if t in s.blocked then s else s.(phase := s.phase[t := Locking])
    case Relock(t) =>
      var m := M.Step(s.mutex, M.Lock(t));
      if m.owner == Some(t) then s.(mutex := m, line := s.line.Leave(t), phase := s.phase - {t}) else s.(mutex := m)
    case Signal => s.(line := s.line.WakeOne(), blocked := if s.line.queue == [] then s.blocked
      else s.blocked - {s.line.queue[0]})
    case Broadcast => s.(line := s.line.WakeAll(), blocked := set t | t in s.blocked && t !in s.line.queue)
  }

  function After(s: State, es: seq<Event>): State {
    if es == [] then s else Step(After(s, es[..|es| - 1]), es[|es| - 1])
  }

  predicate Runs(s: State, es: seq<Event>) {
    es == [] || (Runs(s, es[..|es| - 1]) && Enabled(After(s, es[..|es| - 1]), es[|es| - 1]))
  }

  /** The waiters are exactly the threads in the line: blocked in the queue, ready once woken. */
  ghost predicate Lined(s: State) {
    && s.line.Ordered() && s.blocked <= s.phase.Keys
    && (forall t :: t in s.line.queue <==> t in s.blocked)
    && (forall t :: t in s.line.pending <==> t in s.phase && t !in s.blocked)
  }

  /** The wait has given the mutex up, or, if it was held more than once, has undone one lock only. */
  ghost predicate GivenUp(s: State, t: Tid) {
    if s.Depth(t) == 1 then s.mutex.owner != Some(t)
    else
      && s.mutex.owner == Some(t) && s.mutex.depth == s.Depth(t) - 1 && s.mutex.kind == M.Recursive
      && !s.mutex.line.Inside(t)
  }

  /** What a waiter's phase says about the mutex. */
  ghost predicate PhaseOk(s: State, t: Tid)
    requires t in s.phase
  {
    && 0 < s.Depth(t) < 0x1_0000_0000
    && match s.phase[t]
       case Releasing => s.mutex.owner == Some(t) && s.mutex.depth == s.Depth(t) && !s.mutex.line.Inside(t)
       case Looping => GivenUp(s, t) && !s.mutex.line.Inside(t)
       case Locking => GivenUp(s, t) && t !in s.blocked
  }

  ghost predicate Phased(s: State) { forall t :: t in s.phase ==> PhaseOk(s, t) }

  ghost predicate Inv(s: State) { M.Inv(s.mutex) && Lined(s) && Phased(s) }

  /** A mutex step of thread `u` keeps every other waiter's phase. */
  lemma OthersPhased(s: State, e: M.Event, t: Tid, z: State)
    requires M.Inv(s.mutex) && M.Enabled(s.mutex, e) && t in s.phase && PhaseOk(s, t) && t != e.t
    requires t in z.phase && z.phase[t] == s.phase[t] && z.mutex == M.Step(s.mutex, e) && z.blocked == s.blocked
    requires z.entered == s.entered
    ensures PhaseOk(z, t)
  {
    hide M.Inv, M.Step, M.Enabled;
    M.OthersStep(s.mutex, e, t);
  }

  lemma OuterKeeps(s: State, e: M.Event)
    requires Inv(s) && Enabled(s, Outer(e))
    ensures Inv(Step(s, Outer(e)))
  {
    hide M.Inv, M.Step, M.Enabled, M.Overflows, PhaseOk;
    M.StepKeepsIff(s.mutex, e);
    forall t | t in s.phase ensures PhaseOk(Step(s, Outer(e)), t) {
      OthersPhased(s, e, t, Step(s, Outer(e)));
    }
  }

  lemma BeginKeeps(s: State, t: Tid)
    requires Inv(s) && Enabled(s, Begin(t))
    ensures Inv(Step(s, Begin(t)))
  {
    s.line.SleepOrdered(t);
    forall u | u in s.phase ensures PhaseOk(Step(s, Begin(t)), u) {
      assert PhaseOk(s, u);
    }
    hide M.Inv, Line.Ordered;
  }

  lemma ReleaseKeeps(s: State, t: Tid)
    requires Inv(s) && Enabled(s, Release(t))
    ensures Inv(Step(s, Release(t))) && (Step(s, Release(t)).mutex.owner == None <==> s.Depth(t) == 1)
    ensures s.line.Inside(t)
  {
    var z := Step(s, Release(t));
    ReleaseFrees(s, t);
    hide M.Inv, M.Step, M.Enabled, M.Overflows, PhaseOk, Line.Ordered;
    M.StepKeepsIff(s.mutex, M.Unlock(t));
    forall u | u in z.phase && u != t ensures PhaseOk(z, u) {
      OthersPhased(s, M.Unlock(t), u, z);
    }
  }

  lemma ReleaseFrees(s: State, t: Tid)
    requires M.Inv(s.mutex) && t in s.phase && s.phase[t] == Releasing && PhaseOk(s, t)
    ensures M.Enabled(s.mutex, M.Unlock(t)) && !M.Overflows(s.mutex, M.Unlock(t))
    ensures (Step(s, Release(t)).mutex.owner == None <==> s.Depth(t) == 1) && PhaseOk(Step(s, Release(t)), t)
  {
    s.mutex.line.WakeOneInside(t);
    hide Line.Ordered, Line.WakeOne;
  }

  lemma RelockKeeps(s: State, t: Tid)
    requires Inv(s) && Enabled(s, Relock(t))
    ensures Inv(Step(s, Relock(t)))
  {
    var z := Step(s, Relock(t));
    RelockLocks(s, t);
    s.line.LeaveOrdered(t);
    hide M.Inv, M.Step, M.Enabled, M.Overflows, PhaseOk, Line.Ordered;
    M.StepKeepsIff(s.mutex, M.Lock(t));
    forall u | u in z.phase && u != t ensures PhaseOk(z, u) {
      OthersPhased(s, M.Lock(t), u, z);
    }
  }

  lemma RelockLocks(s: State, t: Tid)
    requires M.Inv(s.mutex) && Enabled(s, Relock(t)) && PhaseOk(s, t)
    ensures M.Enabled(s.mutex, M.Lock(t)) && !M.Overflows(s.mutex, M.Lock(t))
    ensures var z := Step(s, Relock(t));
      if t in z.phase then PhaseOk(z, t) else z.mutex.owner == Some(t) && z.mutex.depth == s.Depth(t)
  {
  }

  lemma SignalKeeps(s: State)
    requires Lined(s)
    ensures Lined(Step(s, Signal))
  {
    s.line.WakeOneOrdered();
    forall t: Tid ensures t in s.line.WakeOne().queue <==> t in s.line.queue && t != s.line.queue[0]
      ensures t in s.line.WakeOne().pending <==> t in s.line.pending || (s.line.queue != [] && t == s.line.queue[0])
    {
      s.line.WakeOneInside(t);
    }
    hide Line.Ordered, Line.WakeOne;
  }

  lemma BroadcastKeeps(s: State)
    requires Lined(s)
    ensures Lined(Step(s, Broadcast))
  {
    s.line.WakeAllOrdered();
    hide Line.Ordered, Line.WakeAll;
  }

  lemma WakeKeeps(s: State, e: Event)
    requires Inv(s) && (e.Signal? || e.Broadcast?)
    ensures Inv(Step(s, e))
  {
    SignalKeeps(s);
    BroadcastKeeps(s);
    assert Step(s, e).blocked <= s.blocked;
    forall t | t in s.phase ensures PhaseOk(Step(s, e), t) {
      assert PhaseOk(s, t);
    }
    hide M.Inv, Lined, Line.WakeAll, Line.WakeOne;
  }

  lemma CheckKeeps(s: State, t: Tid)
    requires Inv(s) && Enabled(s, Check(t))
    ensures Inv(Step(s, Check(t)))
  {
    forall u | u in s.phase ensures PhaseOk(Step(s, Check(t)), u) {
      assert PhaseOk(s, u);
    }
    hide M.Inv, Line.Ordered;
  }

  lemma StepKeeps(s: State, e: Event)
    requires Inv(s) && Enabled(s, e)
    ensures Inv(Step(s, e))
  {
    hide Inv, Enabled, Step;
    match e
    case Outer(m) => OuterKeeps(s, m);
    case Begin(t) => BeginKeeps(s, t);
    case Release(t) => ReleaseKeeps(s, t);
    case Check(t) => CheckKeeps(s, t);
    case Relock(t) => RelockKeeps(s, t);
    case _ => WakeKeeps(s, e);
  }

  lemma {:induction false} RunKeeps(kind: M.Kind, es: seq<Event>)
    requires Runs(Start(kind), es)
    ensures Inv(After(Start(kind), es))
  {
    if es == [] {
      assert M.Inv(M.Start(kind));
    } else {
      hide Step, Inv, Enabled;
      RunKeeps(kind, es[..|es| - 1]);
      StepKeeps(After(Start(kind), es[..|es| - 1]), es[|es| - 1]);
    }
  }

  /** The waiter is registered before the mutex becomes free: in every run, whenever anyone else
      could own the mutex, a waiter is in the queue or has already been woken. */
  lemma QueuedBeforeFree(kind: M.Kind, es: seq<Event>, t: Tid)
    requires Runs(Start(kind), es) && t in After(Start(kind), es).phase && After(Start(kind), es).mutex.owner != Some(t)
    ensures var s := After(Start(kind), es); (t in s.line.queue) != (t in s.line.pending) && !In(s, t, Releasing)
  {
    hide Step, Enabled, After, Runs;
    RunKeeps(kind, es);
    hide M.Inv;
  }

  /** condvar_wait returns only from its own locking step, woken by a signal and owning the mutex as
      deeply as it did when it was called. */
  lemma ReturnsOwning(s: State, e: Event, t: Tid)
    requires Inv(s) && Enabled(s, e) && t in s.phase && t !in Step(s, e).phase
    ensures e == Relock(t) && Step(s, e).mutex.owner == Some(t) && Step(s, e).mutex.depth == s.Depth(t)
    ensures t in s.line.woken && t !in s.line.queue && !Step(s, e).line.Inside(t)
  {
    assert PhaseOk(s, t);
    if e.Relock? {
      RelockLocks(s, e.t);
    }
  }

  /** A broadcast leaves nobody asleep: every waiter is on its way to the mutex. */
  lemma BroadcastWakes(s: State)
    requires Inv(s)
    ensures var z := Step(s, Broadcast);
      z.line.queue == [] && z.blocked == {} && forall t :: t in s.line.queue ==> t in z.line.pending
  {
    s.line.WakeAllOrdered();
    hide Line.Ordered, Line.WakeAll, M.Inv, PhaseOk;
  }

  /** A signal wakes the longest waiter and nobody else; without waiters it is lost. */
  lemma SignalWakes(s: State)
    requires Inv(s)
    ensures var z := Step(s, Signal);
      if s.line.queue == [] then z == s
      else
        && s.line.queue == [s.line.queue[0]] + z.line.queue && z.line.pending == s.line.pending + {s.line.queue[0]}
        && z.blocked == s.blocked - {s.line.queue[0]}
  {
  }

  /** The waiter locks the mutex again exactly if it is free or was never given up. */
  lemma RelockOutcome(s: State, t: Tid)
    requires Inv(s) && Enabled(s, Relock(t))
    ensures t !in Step(s, Relock(t)).phase <==> s.mutex.owner == None || s.mutex.owner == Some(t)
    ensures t in Step(s, Relock(t)).phase ==> t in Step(s, Relock(t)).mutex.line.queue
  {
    assert PhaseOk(s, t);
    hide Line.Ordered;
  }

  /** Signals in a run. */
  function Signals(es: seq<Event>): nat {
    if es == [] then 0 else Signals(es[..|es| - 1]) + if es[|es| - 1] == Signal then 1 else 0
  }

  /** Whatever happens in between, k signals wake the k longest waiters, in order; the others keep
      their places ahead of newcomers. */
  lemma {:induction false} LongestFirst(s: State, es: seq<Event>)
    requires Runs(s, es) && Broadcast !in es && Signals(es) <= |s.line.queue|
    ensures var z, k := After(s, es), Signals(es);
      z.line.woken == s.line.woken + s.line.queue[..k] && s.line.queue[k..] <= z.line.queue
  {
    if es != [] {
      var n := |es| - 1;
      LongestFirst(s, es[..n]);
      LineStep(After(s, es[..n]), es[n]);
      hide Step, Enabled;
    } else {
      assert s.line.woken + s.line.queue[..0] == s.line.woken;
    }
  }

  lemma LineStep(s: State, e: Event)
    requires e != Broadcast
    ensures e != Signal ==> Step(s, e).line.woken == s.line.woken && s.line.queue <= Step(s, e).line.queue
    ensures e == Signal ==> Step(s, e).line == s.line.WakeOne()
  {
  }

  /** Over every run the mutex is given up during a wait exactly if it was held once. A recursive
      mutex held more deeply stays with the waiter, so that no other thread can reach the condition. */
  lemma HeldThroughWait(kind: M.Kind, es: seq<Event>, t: Tid)
    requires Runs(Start(kind), es) && t in After(Start(kind), es).phase && !In(After(Start(kind), es), t, Releasing)
    ensures var s := After(Start(kind), es); s.mutex.owner != Some(t) <==> s.Depth(t) == 1
  {
    hide Step, Enabled, After, Runs;
    RunKeeps(kind, es);
    assert PhaseOk(After(Start(kind), es), t);
    hide M.Inv;
  }

  /** Thread 1 holds a recursive mutex twice and nobody waits. */
  ghost predicate TwiceHeld(s: State) {
    && s.mutex.kind == M.Recursive && s.mutex.owner == Some(1) && s.mutex.depth == 2 && s.mutex.line == NOBODY
    && s.phase == map[] && s.line == NOBODY
  }

  lemma LockedTwice(s: State)
    requires s == Start(M.Recursive)
    ensures var e := Outer(M.Lock(1)); Enabled(s, e) && Enabled(Step(s, e), e) && TwiceHeld(Step(Step(s, e), e))
  {
    assert NOBODY.Leave(1) == NOBODY;
  }

  lemma WaitsHolding(s: State)
    requires TwiceHeld(s)
    ensures var a := Step(s, Begin(1)); var b := Step(a, Release(1)); var c := Step(b, Outer(M.Lock(2)));
      && Enabled(s, Begin(1)) && Enabled(a, Release(1)) && Enabled(b, Outer(M.Lock(2)))
      && In(c, 1, Looping) && c.mutex.owner == Some(1) && 2 in c.mutex.line.queue
  {
  }

  /** A recursive mutex locked twice, then a wait: the waiter sleeps and still owns the mutex, and the
      next thread sleeps on the mutex instead of signalling. */
  lemma HeldTwice()
    ensures var es := [Outer(M.Lock(1)), Outer(M.Lock(1)), Begin(1), Release(1), Outer(M.Lock(2))];
      && Runs(Start(M.Recursive), es)
      && var s := After(Start(M.Recursive), es);
        In(s, 1, Looping) && s.mutex.owner == Some(1) && 2 in s.mutex.line.queue
  {
    hide After, Runs, Step, Enabled, TwiceHeld;
    var a := Start(M.Recursive);
    var e, e3, e4, e5 := Outer(M.Lock(1)), Begin(1), Release(1), Outer(M.Lock(2));
    LockedTwice(a);
    WaitsHolding(Step(Step(a, e), e));
    Nothing(a);
    var s1 := Then(a, [], e);
    var s2 := Then(a, [e], e);
    var s3 := Then(a, [e, e], e3);
    var s4 := Then(a, [e, e, e3], e4);
    var s5 := Then(a, [e, e, e3, e4], e5);
    assert [] + [e] == [e] && [e] + [e] == [e, e] && [e, e] + [e3] == [e, e, e3];
    assert [e, e, e3] + [e4] == [e, e, e3, e4] && [e, e, e3, e4] + [e5] == [e, e, e3, e4, e5];
  }

  lemma Nothing(s: State)
    ensures After(s, []) == s && Runs(s, [])
  {
  }

  lemma Then(s: State, es: seq<Event>, e: Event) returns (z: State)
    ensures z == After(s, es + [e]) == Step(After(s, es), e)
    ensures Runs(s, es + [e]) <==> Runs(s, es) && Enabled(After(s, es), e)
  {
    assert (es + [e])[..|es|] == es;
    z := Step(After(s, es), e);
  }

  class CondVar {
    const mutex: M.Mutex
    var waiters: seq<Tid>
    /** The waiting threads whose state is still THREAD_STATE_BLOCKED. */
    var blocked: set<Tid>
    ghost var phase: map<Tid, Phase>
    ghost var history: Line
    ghost var entered: map<Tid, nat>

    ghost function Now(): State
      reads this, mutex
    {
      State(mutex.Now(), history.(queue := waiters), phase, blocked, entered)
    }

    constructor (mutex: M.Mutex)
      requires mutex.Now() == M.Start(mutex.kind)
      ensures this.mutex == mutex && Now() == Start(mutex.kind) && Inv(Now())
    {
      this.mutex, waiters, blocked, phase, history, entered := mutex, [], {}, map[], NOBODY, map[];
    }

    /** condvar_wait up to the release of its spinlock. */
    method Enter(t: Tid)
      requires Inv(Now()) && Enabled(Now(), Begin(t))
      modifies this
      ensures Inv(Now()) && Now() == Step(old(Now()), Begin(t))
      ensures waiters == old(waiters) + [t] && t in blocked && mutex.owner == Some(t)
    {
      StepKeeps(Now(), Begin(t));
      hide Inv, Enabled;
      ghost var s := Now();
      blocked := blocked + {t};
      waiters := waiters + [t];
      phase, history, entered := phase[t := Releasing], s.line.Sleep(t), entered[t := s.mutex.depth];
    }

    /** mutex_unlock inside condvar_wait. */
    method ReleaseMutex(t: Tid)
      requires Inv(Now()) && Enabled(Now(), Release(t))
      modifies this`phase, mutex
      ensures Inv(Now()) && Now() == Step(old(Now()), Release(t)) && (mutex.owner == None <==> Now().Depth(t) == 1)
    {
      ghost var s := Now();
      ReleaseKeeps(s, t);
      ReleaseFrees(s, t);
      MutexSound(s);
      hide Inv, M.Inv, M.Enabled, M.Step;
      var r := mutex.Unlock(t);
      phase := phase[t := Looping];
    }

    /** One test of the waiting loop. */
    method Awake(t: Tid) returns (r: bool)
      requires Inv(Now()) && Enabled(Now(), Check(t))
      modifies this`phase
      ensures Inv(Now()) && Now() == Step(old(Now()), Check(t)) && (r <==> t in history.pending)
      ensures !r <==> t in waiters
    {
      StepKeeps(Now(), Check(t));
      WaitersLined(Now(), t);
      hide Inv, Enabled;
      r := t !in blocked;
      if r {
        phase := phase[t := Locking];
      }
    }

    /** One pass of mutex_lock at the end of condvar_wait; `taken` means it returns. */
    method Retake(t: Tid, retry: bool) returns (taken: bool)
      requires Inv(Now()) && Enabled(Now(), Relock(t)) && retry == (t in mutex.pending)
      modifies this`phase, this`history, mutex
      ensures Inv(Now()) && Now() == Step(old(Now()), Relock(t)) && taken == (mutex.owner == Some(t))
      ensures taken <==> old(mutex.owner) == None || old(mutex.owner) == Some(t)
      ensures !taken ==> t in mutex.waiters
    {
      ghost var s := Now();
      StepKeeps(s, Relock(t));
      RelockOutcome(s, t);
      MutexSound(s);
      NotOwner(s, t);
      RelockLocks(s, t);
      hide Inv, M.Inv, M.Enabled, M.Step, M.Overflows;
      var asleep;
      taken, asleep := mutex.Lock(t, retry);
      taken := mutex.owner == Some(t);
      if taken {
        phase, history := phase - {t}, s.line.Leave(t);
      }
    }

    method Signal()
      requires Inv(Now())
      modifies this`waiters, this`blocked, this`history
      ensures Inv(Now()) && Now() == Step(old(Now()), Event.Signal)
      ensures old(waiters) == [] ==> Now() == old(Now())
      ensures old(waiters) != [] ==>
        && old(waiters) == [old(waiters)[0]] + waiters && blocked == old(blocked) - {old(waiters)[0]}
        && old(waiters)[0] in history.pending
    {
      ghost var s := Now();
      StepKeeps(s, Event.Signal);
      SignalWakes(s);
      hide Inv;
      if waiters != [] {
        blocked := blocked - {waiters[0]};
        waiters, history := waiters[1..], s.line.WakeOne();
      }
    }

    method Broadcast()
      requires Inv(Now())
      modifies this`waiters, this`blocked, this`history
      ensures Inv(Now()) && Now() == Step(old(Now()), Event.Broadcast)
      ensures waiters == [] && blocked == {} && forall t :: t in old(waiters) ==> t in history.pending
    {
      ghost var s := Now();
      StepKeeps(s, Event.Broadcast);
      BroadcastWakes(s);
      hide Inv;
      while waiters != []
        invariant Inv(Now()) && Step(Now(), Event.Broadcast) == Step(s, Event.Broadcast)
        decreases |waiters|
      {
        ghost var m := Now();
        OneByOne(m);
        StepKeeps(m, Event.Signal);
        blocked := blocked - {waiters[0]};
        waiters, history := waiters[1..], m.line.WakeOne();
      }
      BroadcastIdle(Now());
    }
  }

  /** A broadcast is as many signals as there are waiters. */
  lemma OneByOne(s: State)
    requires Inv(s) && s.line.queue != []
    ensures Step(Step(s, Signal), Broadcast) == Step(s, Broadcast)
  {
    var z := Step(s, Signal);
    assert s.line.queue == [s.line.queue[0]] + s.line.queue[1..];
    assert Step(z, Broadcast).blocked == Step(s, Broadcast).blocked;
  }

  lemma BroadcastIdle(s: State)
    requires s.line.queue == []
    ensures Step(s, Broadcast) == s
  {
    assert Step(s, Broadcast).blocked == s.blocked;
  }

  lemma MutexSound(s: State)
    requires Inv(s)
    ensures M.Inv(s.mutex)
    ensures forall t: Tid {:trigger In(s, t, Releasing)} :: In(s, t, Releasing) ==> PhaseOk(s, t)
  {
  }

  lemma WaitersLined(s: State, t: Tid)
    requires Inv(s) && t in s.phase
    ensures t in s.line.queue <==> t in s.blocked
    ensures t in s.line.pending <==> t !in s.blocked
  {
  }

  lemma NotOwner(s: State, t: Tid)
    requires Inv(s) && In(s, t, Locking)
    ensures PhaseOk(s, t)
  {
  }
}
