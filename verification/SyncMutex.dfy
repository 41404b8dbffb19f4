/** The mutex: ownership, recursion and the line of waiters, one critical section per step. */
module SyncMutex {
  import opened Basics
  import opened SyncBase

  datatype Kind = Normal | Recursive | ErrorCheck

  /** The mutex; `held` counts each thread's successful locks that it has not undone yet. */
  datatype State = State(kind: Kind, owner: Option<Tid>, depth: nat, line: Line, held: map<Tid, nat>) {
    function Held(t: Tid): nat { if t in held then held[t] else 0 }

    /** The owner locks a recursive mutex again; the counter is 32 bits wide. */
    function Again(t: Tid): State {
      this.(depth := (depth + 1) % 0x1_0000_0000, held := held[t := Held(t) + 1])
    }

    function Acquired(t: Tid): State {
      this.(owner := Some(t), depth := 1, line := line.Leave(t), held := held[t := Held(t) + 1])
    }

    function Undone(t: Tid): map<Tid, nat> { held[t := if Held(t) == 0 then 0 else Held(t) - 1] }

    function Released(t: Tid): State {
      this.(owner := None, depth := 0, line := line.WakeOne(), held := Undone(t))
    }
  }

  datatype Event = Lock(t: Tid) | TryLock(t: Tid) | Unlock(t: Tid)

  function Start(kind: Kind): State { State(kind, None, 0, NOBODY, map[]) }

  /** A sleeping thread does nothing; a woken one is inside mutex_lock. */
  predicate Enabled(s: State, e: Event) {
    match e
    case Lock(t) => t !in s.line.queue
    case TryLock(t) => !s.line.Inside(t)
    case Unlock(t) => !s.line.Inside(t)
  }

  /** The recursive case of mutex_lock and mutex_trylock; a woken thread is past that check. */
  predicate Relocks(s: State, e: Event) {
    !e.Unlock? && s.kind == Recursive && s.owner == Some(e.t) && e.t !in s.line.pending
  }

  function Step(s: State, e: Event): State {
    match e
    case Lock(t) =>
      if Relocks(s, e) then s.Again(t)
      else if s.owner == Some(t) && s.kind == ErrorCheck && t !in s.line.pending then s
      else if s.owner == None then s.Acquired(t)
      else s.(line := s.line.Sleep(t))
    case TryLock(t) =>
      if Relocks(s, e) then s.Again(t) else if s.owner == None then s.Acquired(t) else s
    case Unlock(t) =>
      if s.owner != Some(t) then s
      else if s.kind == Recursive && s.depth > 1 then s.(depth := s.depth - 1, held := s.Undone(t))
      else s.Released(t)
  }

  function After(s: State, es: seq<Event>): State {
    if es == [] then s else Step(After(s, es[..|es| - 1]), es[|es| - 1])
  }

  predicate Runs(s: State, es: seq<Event>) {
    es == [] || (Runs(s, es[..|es| - 1]) && Enabled(After(s, es[..|es| - 1]), es[|es| - 1]))
  }

  /** Only the owner holds the mutex, as often as the counter says; a free mutex with sleepers has a
      woken thread on its way. */
  ghost predicate Inv(s: State) {
    && s.line.Ordered() && (forall t: Tid :: s.Held(t) == if s.owner == Some(t) then s.depth else 0)
    && s.depth < 0x1_0000_0000 && (s.depth == 0 <==> s.owner == None) && (s.kind != Recursive ==> s.depth <= 1)
    && (s.owner.Some? ==> s.owner.value !in s.line.pending)
    && (s.owner == None && s.line.queue != [] ==> s.line.pending != {})
  }

  /** The recursion counter would wrap. */
  predicate Overflows(s: State, e: Event) { Relocks(s, e) && s.depth == 0xFFFF_FFFF }

  lemma LockKeeps(s: State, e: Event)
    requires Inv(s) && Enabled(s, e) && !e.Unlock?
    ensures Inv(Step(s, e)) <==> !Overflows(s, e)
  {
    s.line.SleepOrdered(e.t);
    s.line.LeaveOrdered(e.t);
    hide Line.Ordered;
  }

  lemma UnlockKeeps(s: State, t: Tid)
    requires Inv(s) && Enabled(s, Unlock(t))
    ensures Inv(Step(s, Unlock(t)))
  {
    s.line.WakeOneOrdered();
    hide Line.Ordered;
  }

  /** A step keeps the invariant exactly when the recursion counter does not wrap. */
  lemma StepKeepsIff(s: State, e: Event)
    requires Inv(s) && Enabled(s, e)
    ensures Inv(Step(s, e)) <==> !Overflows(s, e)
  {
    hide Step, Inv;
    match e
    case Lock(t) => LockKeeps(s, e);
    case TryLock(t) => LockKeeps(s, e);
    case Unlock(t) => UnlockKeeps(s, t);
  }

  /** A mutex held 2^32 - 1 times by its owner and locked once more: the owner is still named, and the
      counter says that nobody holds the mutex. */
  lemma CounterWraps()
    ensures var s := State(Recursive, Some(1), 0xFFFF_FFFF, NOBODY, map[1 := 0xFFFF_FFFF]);
      && Inv(s) && Enabled(s, Lock(1)) && Step(s, Lock(1)).owner == Some(1) && Step(s, Lock(1)).depth == 0
      && !Inv(Step(s, Lock(1)))
  {
  }

  /** No lock of the run makes the counter wrap. */
  predicate Roomy(s: State, es: seq<Event>) {
    es == [] || (Roomy(s, es[..|es| - 1]) && !Overflows(After(s, es[..|es| - 1]), es[|es| - 1]))
  }

  lemma {:induction false} RunKeeps(kind: Kind, es: seq<Event>)
    requires Runs(Start(kind), es) && Roomy(Start(kind), es)
    ensures Inv(After(Start(kind), es))
  {
    if es != [] {
      hide Step, Inv, Enabled, Overflows;
      RunKeeps(kind, es[..|es| - 1]);
      StepKeepsIff(After(Start(kind), es[..|es| - 1]), es[|es| - 1]);
    } else {
      assert Inv(Start(kind));
    }
  }

  lemma DepthStep(s: State, e: Event)
    ensures Step(s, e).depth <= s.depth + 1
  {
  }

  /** A wrap takes 2^32 - 1 locks. */
  lemma {:induction false} ShortRunsFit(kind: Kind, es: seq<Event>)
    requires |es| < 0x1_0000_0000
    ensures Roomy(Start(kind), es) && After(Start(kind), es).depth <= |es|
  {
    if es != [] {
      hide Step, Relocks;
      ShortRunsFit(kind, es[..|es| - 1]);
      DepthStep(After(Start(kind), es[..|es| - 1]), es[|es| - 1]);
    }
  }

  /** Who gets the mutex. A free mutex goes to whoever asks, by mutex_lock or mutex_trylock; a held one
      to nobody, except once more to the owner of a recursive mutex. */
  lemma LockOutcome(s: State, e: Event)
    requires Inv(s) && Enabled(s, e) && !e.Unlock?
    ensures var z := Step(s, e); var again := s.owner == Some(e.t) && s.kind == Recursive;
      && (z.Held(e.t) == s.Held(e.t) + 1 <==> s.owner == None || again)
      && (s.owner == None ==> z.owner == Some(e.t) && z.depth == 1)
      && (s.owner != None ==> z.owner == s.owner)
      && (e.Lock? && s.owner != None && !again && (s.owner == Some(e.t) ==> s.kind == Normal) ==>
            z.line.queue == s.line.queue + [e.t])
  {
    hide Line.Ordered;
  }

  /** The last unlock of the owner frees the mutex and wakes the longest waiter. */
  lemma UnlockOutcome(s: State, t: Tid)
    requires Inv(s) && Enabled(s, Unlock(t)) && s.owner == Some(t)
    ensures var z := Step(s, Unlock(t));
      && z.Held(t) == s.Held(t) - 1 && (z.owner == None <==> s.Held(t) == 1)
      && (s.Held(t) == 1 && s.line.queue != [] ==>
            s.line.queue == [s.line.queue[0]] + z.line.queue && s.line.queue[0] in z.line.pending)
  {
    hide Line.Ordered;
  }

  /** Mutual exclusion: two holders are the same thread. */
  lemma OneHolder(s: State, t: Tid, u: Tid)
    requires Inv(s) && s.Held(t) > 0 && s.Held(u) > 0
    ensures t == u && s.owner == Some(t) && s.depth == s.Held(t)
  {
  }

  /** An owner is replaced only by its own last unlock. */
  lemma OnlyOwnerReleases(s: State, e: Event, x: Tid)
    requires Inv(s) && Enabled(s, e) && s.owner == Some(x) && Step(s, e).owner != Some(x)
    ensures e == Unlock(x) && s.Held(x) == 1 && Step(s, e).owner == None
    ensures s.line.queue != [] ==> s.line.queue[0] in Step(s, e).line.pending
  {
  }

  /** What a step of one thread means for another: it neither gives nor takes the mutex. */
  lemma OthersStep(s: State, e: Event, t: Tid)
    requires Inv(s) && Enabled(s, e) && t != e.t
    ensures Step(s, e).owner == Some(t) <==> s.owner == Some(t)
    ensures Step(s, e).kind == s.kind && (s.owner == Some(t) ==> Step(s, e).depth == s.depth)
    ensures Step(s, e).line.Inside(t) <==> s.line.Inside(t)
    ensures t in Step(s, e).line.queue ==> t in s.line.queue
  {
    s.line.WakeOneInside(t);
    hide Line.Ordered, Line.WakeOne;
  }

  /** A normal mutex locked twice by its owner is locked for ever: no run frees it or wakes the owner. */
  lemma {:induction false} SelfDeadlock(s: State, t: Tid, es: seq<Event>)
    requires s.kind == Normal && s.owner == Some(t) && t in s.line.queue && Runs(s, es)
    ensures var z := After(s, es); z.kind == Normal && z.owner == Some(t) && t in z.line.queue
  {
    if es != [] {
      SelfDeadlock(s, t, es[..|es| - 1]);
    }
  }

  /** How the deadlock comes about. */
  lemma RelockNormal(s: State, t: Tid)
    requires Inv(s) && s.kind == Normal && s.owner == Some(t) && t !in s.line.queue
    ensures Enabled(s, Lock(t)) && t in Step(s, Lock(t)).line.queue && Step(s, Lock(t)).owner == Some(t)
  {
  }

  class Mutex {
    const kind: Kind
    var owner: Option<Tid>
    var recursionCount: nat
    var waiters: seq<Tid>
    ghost var pending: set<Tid>
    ghost var queued: seq<Tid>
    ghost var woken: seq<Tid>
    ghost var held: map<Tid, nat>

    ghost function Now(): State
      reads this
    {
      State(kind, owner, recursionCount, Line(waiters, pending, queued, woken), held)
    }

    constructor (kind: Kind)
      ensures Now() == Start(kind) && Inv(Now())
    {
      this.kind, owner, recursionCount, waiters := kind, None, 0, [];
      pending, queued, woken, held := {}, [], [], map[];
    }

    /** mutex_lock up to its first acquisition, refusal (false, false) or sleep (false, true); called
        again by a woken thread, which is past the recursion check. */
    method Lock(t: Tid, retry: bool) returns (taken: bool, asleep: bool)
      requires Inv(Now()) && Enabled(Now(), Event.Lock(t)) && retry == (t in pending)
      modifies this
      ensures Now() == Step(old(Now()), Event.Lock(t)) && (Inv(Now()) <==> !Overflows(old(Now()), Event.Lock(t)))
      ensures taken <==> owner == Some(t) && Now().Held(t) == old(Now()).Held(t) + 1
      ensures asleep <==> t in waiters
      ensures old(owner) == None ==> taken && owner == Some(t) && recursionCount == 1 && waiters == old(waiters)
      ensures old(owner) != None && old(owner) != Some(t) ==> asleep && waiters == old(waiters) + [t]
      ensures old(owner) == Some(t) && kind == Recursive ==>
        taken && recursionCount == (if old(recursionCount) == 0xFFFF_FFFF then 0 else old(recursionCount) + 1)
      ensures old(owner) == Some(t) && kind == ErrorCheck ==> !taken && !asleep && Now() == old(Now())
      ensures old(owner) == Some(t) && kind == Normal ==> asleep && waiters == old(waiters) + [t]
      ensures !taken ==> owner == old(owner) && recursionCount == old(recursionCount)
    {
      ghost var before := Now();
      StepKeepsIff(before, Event.Lock(t));
      if !retry && owner == Some(t) {
        match kind
        case Recursive =>
          recursionCount := (recursionCount + 1) % 0x1_0000_0000;
          held := held[t := before.Held(t) + 1];
          return true, false;
        case ErrorCheck =>
          return false, false;
        case Normal =>
      }
      pending := pending - {t};
      if owner != None {
        waiters := waiters + [t];
        queued := queued + [t];
        return false, true;
      }
      owner := Some(t);
      recursionCount := 1;
      held := held[t := before.Held(t) + 1];
      return true, false;
    }

    method TryLock(t: Tid) returns (taken: bool)
      requires Inv(Now()) && Enabled(Now(), Event.TryLock(t))
      modifies this
      ensures Now() == Step(old(Now()), Event.TryLock(t)) && (Inv(Now()) <==> !Overflows(old(Now()), Event.TryLock(t)))
      ensures taken <==> owner == Some(t) && Now().Held(t) == old(Now()).Held(t) + 1
      ensures taken <==> old(owner) == None || (old(owner) == Some(t) && kind == Recursive)
      ensures old(owner) == None ==> recursionCount == 1
      ensures !taken ==> Now() == old(Now())
    {
      ghost var before := Now();
      StepKeepsIff(before, Event.TryLock(t));
      if owner == Some(t) && kind == Recursive {
        recursionCount := (recursionCount + 1) % 0x1_0000_0000;
        held := held[t := before.Held(t) + 1];
        return true;
      }
      if owner == None {
        owner := Some(t);
        recursionCount := 1;
        held := held[t := before.Held(t) + 1];
        pending := pending - {t};
        return true;
      }
      return false;
    }

    method Unlock(t: Tid) returns (r: int)
      requires Inv(Now()) && Enabled(Now(), Event.Unlock(t))
      modifies this
      ensures Inv(Now()) && Now() == Step(old(Now()), Event.Unlock(t))
      ensures r == (if old(Now()).Held(t) > 0 then 0 else -1)
      ensures r == 0 <==> old(owner) == Some(t)
      ensures r == -1 ==> Now() == old(Now())
      ensures r == 0 && old(recursionCount) > 1 ==>
        owner == Some(t) && recursionCount == old(recursionCount) - 1 && waiters == old(waiters)
      ensures r == 0 && old(recursionCount) == 1 ==> owner == None && recursionCount == 0
      ensures r == 0 && old(recursionCount) == 1 && old(waiters) != [] ==>
        old(waiters) == [old(waiters)[0]] + waiters && old(waiters)[0] in pending
    {
      ghost var before := Now();
      StepKeepsIff(before, Event.Unlock(t));
      if owner != Some(t) {
        return -1;
      }
      held := before.Undone(t);
      if kind == Recursive && recursionCount > 1 {
        recursionCount := recursionCount - 1;
        return 0;
      }
      owner := None;
      recursionCount := 0;
      if waiters != [] {
        pending := pending + {waiters[0]};
        woken := woken + [waiters[0]];
        waiters := waiters[1..];
      }
      return 0;
    }
  }
}
