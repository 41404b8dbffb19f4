/** The counting semaphore. Each critical section is one step; a waiter that finds no token is
    queued, a post moves the longest waiter to `pending`, and a pending thread tries again. */
module SyncSemaphore {
  import opened SyncBase
  import Arith

  /** The semaphore with its history of successful posts and waits. */
  datatype State = State(count: int, limit: nat, line: Line, posts: nat, waits: nat)

  datatype Event = Wait(t: Tid) | TryWait(t: Tid) | Post

  function Start(initial: int, limit: nat): State {
    State(initial, limit, NOBODY, 0, 0)
  }

  /** A queued thread is asleep; a pending one is inside sem_wait. */
  predicate Enabled(s: State, e: Event) {
    match e
    case Wait(t) => t !in s.line.queue
    case TryWait(t) => !s.line.Inside(t)
    case Post => true
  }

  function Taken(s: State, t: Tid): State
    requires s.count > 0
  {
    s.(count := s.count - 1, waits := s.waits + 1, line := s.line.Leave(t))
  }

  /** The unsigned comparison of sem_post. */
  predicate Full(s: State) { s.limit > 0 && s.count % 0x1_0000_0000 >= s.limit }

  function Step(s: State, e: Event): State {
    match e
    case Wait(t) => if s.count <= 0 then s.(line := s.line.Sleep(t)) else Taken(s, t)
    case TryWait(t) => if s.count > 0 then Taken(s, t) else s
    case Post =>
      if Full(s) then s else s.(count := Arith.Int32(s.count + 1), posts := s.posts + 1, line := s.line.WakeOne())
  }

  /** The call finds a token; this is what sem_trywait returns. */
  predicate Granted(s: State, e: Event) { !e.Post? && s.count > 0 }

  /** The post is accepted; sem_post returns 0. The bound is compared as an unsigned number. */
  predicate Accepted(s: State, e: Event) {
    e.Post? && (s.limit == 0 || (0 <= s.count < s.limit) || (s.count < 0 && s.count + 0x1_0000_0000 < s.limit))
  }

  /** What one call does. A token is taken by exactly the calls that find one, a post adds one and wakes
      the longest waiter, a wait without a token queues the caller, and any other call changes nothing. */
  lemma Effect(s: State, e: Event)
    requires -0x8000_0000 <= s.count < 0x8000_0000
    ensures var z := Step(s, e);
      && z.waits == s.waits + (if Granted(s, e) then 1 else 0) && z.posts == s.posts + (if Accepted(s, e) then 1 else 0)
      && (Granted(s, e) ==> z.count == s.count - 1 && z.line.queue == s.line.queue)
      && (Accepted(s, e) ==>
            && z.count == (if s.count == 0x7FFF_FFFF then -0x8000_0000 else s.count + 1)
            && (s.line.queue != [] ==>
                  s.line.queue == [s.line.queue[0]] + z.line.queue && s.line.queue[0] in z.line.pending))
      && (!Granted(s, e) && !Accepted(s, e) ==> z == if e.Wait? then s.(line := s.line.Sleep(e.t)) else s)
  {
  }

  function After(s: State, es: seq<Event>): State {
    if es == [] then s else Step(After(s, es[..|es| - 1]), es[|es| - 1])
  }

  /** Every event of the run is one its thread can perform at that point. */
  predicate Runs(s: State, es: seq<Event>) {
    es == [] || (Runs(s, es[..|es| - 1]) && Enabled(After(s, es[..|es| - 1]), es[|es| - 1]))
  }

  /** No lost wakeup: while threads sleep, the tokens are spoken for by threads about to retry. */
  ghost predicate Inv(s: State) {
    && -0x8000_0000 <= s.count < 0x8000_0000 && s.line.Ordered()
    && (s.line.queue != [] ==> s.count <= |s.line.pending|)
  }

  lemma StepKeeps(s: State, e: Event)
    requires Inv(s) && Enabled(s, e)
    ensures Inv(Step(s, e))
  {
    hide Line.Ordered;
    match e
    case Wait(t) =>
      s.line.SleepOrdered(t);
      s.line.LeaveOrdered(t);
    case TryWait(t) =>
      s.line.LeaveOrdered(t);
    case Post =>
      s.line.WakeOneOrdered();
      assert Arith.Int32(s.count + 1) <= s.count + 1;
  }

  /** count = initial + posts - waits, in 32-bit arithmetic. */
  ghost predicate Balanced(s: State, initial: int) { s.count == Arith.Int32(initial + s.posts - s.waits) }

  lemma StepBalanced(s: State, e: Event, initial: int)
    requires Balanced(s, initial)
    ensures Balanced(Step(s, e), initial) && Step(s, e).limit == s.limit
  {
    hide Arith.Int32;
    var x := initial + s.posts - s.waits;
    Arith.Int32Step(x, 1);
    Arith.Int32Step(x, -1);
    assert s.count > 0 ==> Arith.Int32(s.count - 1) == s.count - 1;
  }

  /** Over every run: the invariant, and the balance of posts and waits. */
  lemma {:induction false} RunKeeps(initial: int, limit: nat, es: seq<Event>)
    requires -0x8000_0000 <= initial < 0x8000_0000 && Runs(Start(initial, limit), es)
    ensures var s := After(Start(initial, limit), es); Inv(s) && s.limit == limit && Balanced(s, initial)
  {
    if es != [] {
      hide Inv, Step, Enabled, Balanced;
      var n := |es| - 1;
      RunKeeps(initial, limit, es[..n]);
      StepKeeps(After(Start(initial, limit), es[..n]), es[n]);
      StepBalanced(After(Start(initial, limit), es[..n]), es[n], initial);
    }
  }

  /** The calls of a run that were granted a token, and the posts that were accepted. */
  function Grants(s: State, es: seq<Event>): nat {
    if es == [] then 0
    else Grants(s, es[..|es| - 1]) + if Granted(After(s, es[..|es| - 1]), es[|es| - 1]) then 1 else 0
  }

  function Accepts(s: State, es: seq<Event>): nat {
    if es == [] then 0
    else Accepts(s, es[..|es| - 1]) + if Accepted(After(s, es[..|es| - 1]), es[|es| - 1]) then 1 else 0
  }

  /** Over every run the count is what it was, plus the posts that succeeded, less the waits that did,
      in 32-bit arithmetic. */
  lemma {:induction false} RunCounts(initial: int, limit: nat, es: seq<Event>)
    requires -0x8000_0000 <= initial < 0x8000_0000 && Runs(Start(initial, limit), es)
    ensures var s, z := Start(initial, limit), After(Start(initial, limit), es);
      && z.waits == Grants(s, es) && z.posts == Accepts(s, es)
      && z.count == Arith.Int32(initial + Accepts(s, es) - Grants(s, es))
  {
    hide Step, Enabled, Granted, Accepted, Arith.Int32;
    RunKeeps(initial, limit, es);
    if es != [] {
      var n := |es| - 1;
      RunCounts(initial, limit, es[..n]);
      RunKeeps(initial, limit, es[..n]);
      Effect(After(Start(initial, limit), es[..n]), es[n]);
    }
  }

  ghost predicate Exact(s: State, initial: int, limit: nat) {
    s.limit == limit && 0 <= s.count <= limit && s.count == initial + s.posts - s.waits
  }

  lemma StepExact(s: State, e: Event, initial: int, limit: nat)
    requires Exact(s, initial, limit) && 0 < limit < 0x8000_0000
    ensures Exact(Step(s, e), initial, limit)
  {
  }

  lemma {:induction false} RunBounded(initial: int, limit: nat, es: seq<Event>)
    requires 0 <= initial <= limit < 0x8000_0000 && limit > 0 && Runs(Start(initial, limit), es)
    ensures Exact(After(Start(initial, limit), es), initial, limit)
  {
    if es != [] {
      hide Step, Exact;
      RunBounded(initial, limit, es[..|es| - 1]);
      StepExact(After(Start(initial, limit), es[..|es| - 1]), es[|es| - 1], initial, limit);
    }
  }

  /** Without a limit the count is exact until it leaves the 32-bit range. */
  lemma {:induction false} RunUnlimited(initial: int, es: seq<Event>)
    requires 0 <= initial && Runs(Start(initial, 0), es) && initial + After(Start(initial, 0), es).posts < 0x8000_0000
    ensures var s := After(Start(initial, 0), es); s.limit == 0 && 0 <= s.count == initial + s.posts - s.waits
  {
    if es != [] {
      RunUnlimited(initial, es[..|es| - 1]);
    }
  }

  lemma OneMore(s: State, es: seq<Event>, e: Event)
    ensures After(s, es + [e]) == Step(After(s, es), e)
    ensures Runs(s, es + [e]) <==> Runs(s, es) && Enabled(After(s, es), e)
  {
    assert (es + [e])[..|es|] == es;
    hide Step, Enabled;
  }

  function Posts(n: nat): seq<Event> { if n == 0 then [] else Posts(n - 1) + [Post] }

  lemma ClimbStep(s: State)
    requires 0 <= s.count < 0x8000_0000 <= s.limit && s.line.queue == []
    ensures Step(s, Post) == s.(count := Arith.Int32(s.count + 1), posts := s.posts + 1)
  {
  }

  ghost predicate Climbed(s: State, count: int,
                          limit: nat) { s.count == count && s.line.queue == [] && s.limit == limit }

  lemma ClimbNext(s: State, es: seq<Event>, count: nat, limit: nat)
    requires 0x8000_0000 <= limit && count + 1 < 0x8000_0000 && Runs(s, es) && Climbed(After(s, es), count, limit)
    ensures Runs(s, es + [Post]) && Climbed(After(s, es + [Post]), count + 1, limit)
  {
    hide Step, After, Runs;
    OneMore(s, es, Post);
    ClimbStep(After(s, es));
  }

  lemma {:induction false} PostsClimb(initial: nat, limit: nat, n: nat)
    requires 0x8000_0000 <= limit && initial + n < 0x8000_0000
    ensures Runs(Start(initial, limit), Posts(n)) && Climbed(After(Start(initial, limit), Posts(n)), initial + n, limit)
  {
    hide Step;
    if n > 0 {
      PostsClimb(initial, limit, n - 1);
      ClimbNext(Start(initial, limit), Posts(n - 1), initial + n - 1, limit);
    }
  }

  /** One post too many: the count goes negative. */
  lemma PostsOverflow(initial: int, limit: nat)
    requires 0 <= initial < 0x8000_0000 <= limit
    ensures exists es :: Runs(Start(initial, limit), es) && After(Start(initial, limit), es).count < 0
  {
    hide Step, After, Runs;
    var es := Posts(0x7FFF_FFFF - initial);
    PostsClimb(initial, limit, 0x7FFF_FFFF - initial);
    OneMore(Start(initial, limit), es, Post);
    ClimbStep(After(Start(initial, limit), es));
    assert Arith.Int32(0x8000_0000) < 0;
  }

  /** A limited semaphore stays between 0 and its limit in every run exactly when it starts there
      and the limit fits a signed 32-bit count. */
  lemma BoundedIff(initial: int, limit: nat)
    requires -0x8000_0000 <= initial < 0x8000_0000 && limit > 0
    ensures (forall es :: Runs(Start(initial, limit), es) ==> 0 <= After(Start(initial, limit), es).count <= limit)
      <==> 0 <= initial <= limit < 0x8000_0000
  {
    if 0 <= initial <= limit < 0x8000_0000 {
      forall es | Runs(Start(initial, limit), es) ensures 0 <= After(Start(initial, limit), es).count <= limit {
        RunBounded(initial, limit, es);
      }
    } else if !(0 <= initial <= limit) {
      assert Runs(Start(initial, limit), []) && After(Start(initial, limit), []).count == initial;
    } else {
      PostsOverflow(initial, limit);
    }
  }

  /** The comparison in sem_post is unsigned: from a negative count no post ever succeeds. */
  lemma {:induction false} NegativeIsStuck(initial: int, limit: nat, es: seq<Event>)
    requires -0x8000_0000 <= initial < 0 < limit <= initial + 0x1_0000_0000 && Runs(Start(initial, limit), es)
    ensures var s := After(Start(initial, limit), es);
      s.count == initial && s.limit == limit && s.posts == 0 && s.waits == 0 && s.line.woken == []
  {
    if es != [] {
      NegativeIsStuck(initial, limit, es[..|es| - 1]);
    }
  }

  class Semaphore {
    var count: int
    const limit: nat
    var waiters: seq<Tid>
    ghost var pending: set<Tid>
    ghost var posts: nat
    ghost var waits: nat
    ghost var queued: seq<Tid>
    ghost var woken: seq<Tid>

    ghost function Now(): State
      reads this
    {
      State(count, limit, Line(waiters, pending, queued, woken), posts, waits)
    }

    constructor (initial: int, limit: nat)
      requires -0x8000_0000 <= initial < 0x8000_0000
      ensures Now() == Start(initial, limit) && Inv(Now())
    {
      this.count, this.limit, waiters := initial, limit, [];
      pending, posts, waits, queued, woken := {}, 0, 0, [], [];
    }

    /** One pass of the loop of sem_wait: take a token or go to sleep. */
    method Wait(t: Tid) returns (taken: bool)
      requires Inv(Now()) && Enabled(Now(), Event.Wait(t))
      modifies this
      ensures Inv(Now()) && Now() == Step(old(Now()), Event.Wait(t)) && taken == (old(count) > 0)
      ensures taken ==> count == old(count) - 1 && waits == old(waits) + 1 && waiters == old(waiters)
      ensures !taken ==> count == old(count) && waits == old(waits) && waiters == old(waiters) + [t]
      ensures posts == old(posts) && t !in pending
    {
      StepKeeps(Now(), Event.Wait(t));
      pending := pending - {t};
      if count <= 0 {
        waiters := waiters + [t];
        queued := queued + [t];
        return false;
      }
      count := count - 1;
      waits := waits + 1;
      return true;
    }

    method TryWait(t: Tid) returns (taken: bool)
      requires Inv(Now()) && Enabled(Now(), Event.TryWait(t))
      modifies this
      ensures Inv(Now()) && Now() == Step(old(Now()), Event.TryWait(t)) && taken == (old(count) > 0)
      ensures taken ==> count == old(count) - 1 && waits == old(waits) + 1 && waiters == old(waiters)
      ensures !taken ==> Now() == old(Now())
    {
      StepKeeps(Now(), Event.TryWait(t));
      if count > 0 {
        count := count - 1;
        waits := waits + 1;
        pending := pending - {t};
        return true;
      }
      return false;
    }

    method Post() returns (r: int)
      requires Inv(Now())
      modifies this
      ensures Inv(Now()) && Now() == Step(old(Now()), Event.Post) && r == (if old(Full(Now())) then -1 else 0)
      ensures r == 0 ==> count == (if old(count) == 0x7FFF_FFFF then -0x8000_0000 else old(count) + 1)
      ensures r == 0 ==> posts == old(posts) + 1 && waits == old(waits)
      ensures r == 0 && old(waiters) != [] ==> old(waiters) == [old(waiters)[0]] + waiters && old(waiters)[0] in pending
      ensures r == -1 ==> Now() == old(Now())
      ensures limit == 0 ==> r == 0
      ensures limit > 0 && old(count) >= 0 ==> (r == 0 <==> old(count) < limit)
      ensures limit > 0 && old(count) < 0 ==> (r == 0 <==> old(count) + 0x1_0000_0000 < limit)
    {
      StepKeeps(Now(), Event.Post);
      Effect(Now(), Event.Post);
      hide Inv;
      if limit > 0 && count % 0x1_0000_0000 >= limit {
        return -1;
      }
      count := Arith.Int32(count + 1);
      posts := posts + 1;
      if waiters != [] {
        pending := pending + {waiters[0]};
        woken := woken + [waiters[0]];
        waiters := waiters[1..];
      }
      return 0;
    }
  }
}
