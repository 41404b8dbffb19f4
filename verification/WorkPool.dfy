/** The worker pool: submitters, workers and shutdown around one work queue and its semaphore. */
module WorkPool {
  import opened Basics
  import opened SyncBase
  import S = SyncSemaphore

  /** A submission: one allocated work_item_t. */
  type Item = nat

  /** Where a worker is in its loop: at the loop test, inside sem_wait, back from it with a token,
      past the second test, running an item, or gone. */
  datatype Phase = Top | Waiting | Holding | Fetching | Running(item: Item) | Exited

  /** `checked` are submitters past the shutdown test, `posting` those that have enqueued and not yet
      posted; `postsLeft` are the posts shutdown still has to make. The last four fields are history. */
  datatype State = State(sem: S.State, items: seq<Item>, shutdown: bool, postsLeft: nat,
                         workers: map<Tid, Phase>, checked: set<Tid>, posting: set<Tid>,
                         submitted: seq<Item>, fetched: seq<Item>, executed: seq<Item>, freed: seq<Item>)
  {
    function At(t: Tid): Phase { if t in workers then workers[t] else Exited }

    function Move(t: Tid, p: Phase): State { this.(workers := workers[t := p]) }

    function Posted(): State { this.(sem := S.Step(sem, S.Post)) }
  }

  datatype Event =
    Test(t: Tid) | Wait(t: Tid) | Recheck(t: Tid) | Fetch(t: Tid) | Finish(t: Tid) |
    Check(t: Tid) | Enqueue(t: Tid, item: Item) | Post(t: Tid) | Shutdown | ShutdownPost | Destroy

  function Start(workers: set<Tid>): State {
    State(S.Start(0, 0), [], false, 0, map t | t in workers :: Top, {}, {}, [], [], [], [])
  }

  predicate Drained(s: State) {
    s.shutdown && s.checked == {} && s.posting == {} && forall t :: t in s.workers ==> s.workers[t] == Exited
  }

  /** Who may do what: workers follow their loop, a pool is shut down once, and it is destroyed when
      nobody uses it any more. */
  predicate Enabled(s: State, e: Event) {
    match e
    case Test(t) => t in s.workers && s.workers[t] == Top
    case Wait(t) => t in s.workers && s.workers[t] == Waiting && t !in s.sem.line.queue
    case Recheck(t) => t in s.workers && s.workers[t] == Holding
    case Fetch(t) => t in s.workers && s.workers[t] == Fetching
    case Finish(t) => t in s.workers && s.workers[t].Running?
    case Check(t) => t !in s.checked && t !in s.posting
    case Enqueue(t, item) => t in s.checked && t !in s.posting && item !in s.submitted
    case Post(t) => t in s.posting
    case Shutdown => !s.shutdown
    case ShutdownPost => s.postsLeft > 0
    case Destroy => Drained(s)
  }

  /** A post on the largest token count a signed 32-bit integer holds. */
  predicate Overflows(s: State, e: Event) { (e.Post? || e.ShutdownPost?) && s.sem.count == 0x7FFF_FFFF }

  function Step(s: State, e: Event): State {
    match e
    case Test(t) => s.Move(t, if s.shutdown then Exited else Waiting)
    case Wait(t) =>
      var a := s.(sem := S.Step(s.sem, S.Wait(t)));
      if s.sem.count > 0 then a.Move(t, Holding) else a
    case Recheck(t) => s.Move(t, if s.shutdown then Exited else Fetching)
    case Fetch(t) =>
      if s.items == [] then s.Move(t, Top)
      else s.(items := s.items[1..], fetched := s.fetched + [s.items[0]]).Move(t, Running(s.items[0]))
    case Finish(t) =>
      if s.At(t).Running? then s.(executed := s.executed + [s.At(t).item]).Move(t, Top) else s
    case Check(t) => if s.shutdown then s else s.(checked := s.checked + {t})
    case Enqueue(t, item) =>
      s.(items := s.items + [item], submitted := s.submitted + [item], checked := s.checked - {t},
          posting := s.posting + {t})
    case Post(t) => s.Posted().(posting := s.posting - {t})
    case Shutdown => s.(shutdown := true, postsLeft := |s.workers|)
    case ShutdownPost => s.Posted().(postsLeft := if s.postsLeft == 0 then 0 else s.postsLeft - 1)
    case Destroy => s.(items := [], freed := s.freed + s.items)
  }

  function After(s: State, es: seq<Event>): State {
    if es == [] then s else Step(After(s, es[..|es| - 1]), es[|es| - 1])
  }

  predicate Runs(s: State, es: seq<Event>) {
    es == [] || (Runs(s, es[..|es| - 1]) && Enabled(After(s, es[..|es| - 1]), es[|es| - 1]))
  }

  /** No post of the run overflows the token count. */
  predicate Roomy(s: State, es: seq<Event>) {
    es == [] || (Roomy(s, es[..|es| - 1]) && !Overflows(After(s, es[..|es| - 1]), es[|es| - 1]))
  }

  // ----- counting workers

  ghost function Those(w: map<Tid, Phase>, p: Phase): set<Tid> { set t | t in w && w[t] == p }

  ghost function Count(w: map<Tid, Phase>, p: Phase): nat { |Those(w, p)| }

  lemma CountMove(w: map<Tid, Phase>, t: Tid, q: Phase, p: Phase)
    requires t in w
    ensures Count(w[t := q], p) == Count(w, p) + (if q == p then 1 else 0) - (if w[t] == p then 1 else 0)
  {
    var w' := w[t := q];
    if q == p && w[t] != p {
      assert Those(w', p) == Those(w, p) + {t};
    } else if q != p && w[t] == p {
      assert Those(w', p) == Those(w, p) - {t};
    } else {
      assert Those(w', p) == Those(w, p);
    }
  }

  lemma CountPositive(w: map<Tid, Phase>, t: Tid)
    requires t in w
    ensures Count(w, w[t]) > 0
  {
    assert t in Those(w, w[t]);
  }

  lemma CountAtMost(w: map<Tid, Phase>, p: Phase)
    ensures Count(w, p) <= |w|
  {
    assert Those(w, p) <= w.Keys;
    Subset(Those(w, p), w.Keys);
    assert |w.Keys| == |w|;
  }

  lemma {:induction false} Subset(a: set<Tid>, b: set<Tid>)
    requires a <= b
    ensures |a| <= |b|
  {
    assert b == a + (b - a);
    assert |a + (b - a)| == |a| + |b - a|;
  }

  // ----- tokens and items

  ghost function TokenHolders(s: State): nat { Count(s.workers, Holding) + Count(s.workers, Fetching) }

  /** Before shutdown every item is announced by exactly one of: a submitter about to post, a token,
      a worker holding a token. After it, the tokens and the posts to come cover the workers that can
      still enter sem_wait. */
  ghost predicate Tokens(s: State) {
    && S.Inv(s.sem) && s.sem.limit == 0 && s.sem.count >= 0
    && (forall t :: s.sem.line.Inside(t) ==> t in s.workers && s.workers[t] == Waiting)
    && Count(s.workers, Fetching) <= |s.items|
    && (!s.shutdown ==> s.postsLeft == 0 && |s.items| == |s.posting| + s.sem.count + TokenHolders(s))
    && (s.shutdown ==> s.sem.count + s.postsLeft >= Count(s.workers, Waiting))
  }

  lemma MoveKeeps(s: State, t: Tid, p: Phase, z: State)
    requires Tokens(s) && t in s.workers && z == s.Move(t, p)
    requires || (s.workers[t] == Top && p == (if s.shutdown then Exited else Waiting))
             || (s.workers[t] == Holding && p == (if s.shutdown then Exited else Fetching))
             || (s.workers[t].Running? && p == Top)
    ensures Tokens(z)
  {
    hide S.Inv, Count;
    CountMove(s.workers, t, p, Waiting);
    CountMove(s.workers, t, p, Holding);
    CountMove(s.workers, t, p, Fetching);
    assert s.workers[t] == Holding ==> Count(s.workers, Holding) > 0 by { CountPositive(s.workers, t); }
  }

  lemma WaitKeeps(s: State, t: Tid)
    requires Tokens(s) && Enabled(s, Wait(t))
    ensures Tokens(Step(s, Wait(t)))
  {
    hide S.Inv, Count;
    S.StepKeeps(s.sem, S.Wait(t));
    CountMove(s.workers, t, Holding, Waiting);
    CountMove(s.workers, t, Holding, Holding);
    CountMove(s.workers, t, Holding, Fetching);
  }

  lemma FetchKeeps(s: State, t: Tid)
    requires Tokens(s) && Enabled(s, Fetch(t))
    ensures s.items != [] && Tokens(Step(s, Fetch(t)))
  {
    hide S.Inv, Count;
    CountPositive(s.workers, t);
    var p := Running(s.items[0]);
    CountMove(s.workers, t, p, Waiting);
    CountMove(s.workers, t, p, Holding);
    CountMove(s.workers, t, p, Fetching);
  }

  lemma PostKeeps(s: State, z: State)
    requires Tokens(s) && s.sem.count != 0x7FFF_FFFF && z.sem == S.Step(s.sem, S.Post)
    requires z.items == s.items && z.shutdown == s.shutdown && z.workers == s.workers
    requires z.postsLeft <= s.postsLeft <= z.postsLeft + 1
    requires !s.shutdown ==> z.postsLeft == 0 && |z.posting| == |s.posting| - 1
    ensures Tokens(z)
  {
    S.StepKeeps(s.sem, S.Post);
    forall t | z.sem.line.Inside(t) ensures s.sem.line.Inside(t) {
      s.sem.line.WakeOneInside(t);
    }
    assert z.sem.count == s.sem.count + 1;
    hide S.Inv, Count, Line.WakeOne;
  }

  lemma SubmitKeeps(s: State, e: Event)
    requires Tokens(s) && Enabled(s, e) && !Overflows(s, e) && (e.Check? || e.Enqueue? || e.Post?)
    ensures Tokens(Step(s, e))
  {
    hide S.Inv, S.Step, Count;
    match e
    case Post(t) =>
      assert |s.posting - {t}| == |s.posting| - 1;
      PostKeeps(s, Step(s, e));
    case Enqueue(t, item) =>
      assert |s.posting + {t}| == |s.posting| + 1;
    case _ =>
  }

  lemma ShutdownKeeps(s: State, e: Event)
    requires Tokens(s) && Enabled(s, e) && !Overflows(s, e) && (e.Shutdown? || e.ShutdownPost? || e.Destroy?)
    ensures Tokens(Step(s, e))
  {
    hide S.Inv, S.Step, Count;
    match e
    case Shutdown => CountAtMost(s.workers, Waiting);
    case ShutdownPost => PostKeeps(s, Step(s, e));
    case Destroy => NobodyFetches(s);
  }

  lemma NobodyFetches(s: State)
    requires Drained(s)
    ensures Count(s.workers, Fetching) == 0 && Count(s.workers, Waiting) == 0
  {
    assert Those(s.workers, Fetching) == {} && Those(s.workers, Waiting) == {};
  }

  lemma PostOverflows(s: State, e: Event)
    requires Tokens(s) && Overflows(s, e)
    ensures !Tokens(Step(s, e))
  {
    hide S.Inv, Count;
  }

  /** A step keeps the token count exactly when it does not overflow. */
  lemma TokensIff(s: State, e: Event)
    requires Tokens(s) && Enabled(s, e)
    ensures Tokens(Step(s, e)) <==> !Overflows(s, e)
  {
    hide Tokens, Step, Enabled;
    if Overflows(s, e) {
      PostOverflows(s, e);
    } else {
      TokensKept(s, e);
    }
  }

  lemma TokensKept(s: State, e: Event)
    requires Tokens(s) && Enabled(s, e) && !Overflows(s, e)
    ensures Tokens(Step(s, e))
  {
    match e {
      case Test(t) => MoveKeeps(s, t, if s.shutdown then Exited else Waiting, Step(s, e));
      case Recheck(t) => MoveKeeps(s, t, if s.shutdown then Exited else Fetching, Step(s, e));
      case Finish(t) => FinishKeeps(s, t);
      case Wait(t) => WaitKeeps(s, t);
      case Fetch(t) => FetchKeeps(s, t);
      case Shutdown => ShutdownKeeps(s, e);
      case ShutdownPost => ShutdownKeeps(s, e);
      case Destroy => ShutdownKeeps(s, e);
      case _ => SubmitKeeps(s, e);
    }
    hide Tokens;
  }

  lemma FinishKeeps(s: State, t: Tid)
    requires Tokens(s) && Enabled(s, Finish(t))
    ensures Tokens(Step(s, Finish(t)))
  {
    hide S.Inv, Count;
    MoveKeeps(s, t, Top, s.Move(t, Top));
  }

  // ----- each item once

  predicate Busy(s: State, t: Tid, x: Item) { t in s.workers && s.workers[t] == Running(x) }

  /** Items leave the queue in submission order; a fetched item is being run by one worker or has
      been run once. */
  ghost predicate Items(s: State) {
    && Distinct(s.submitted) && s.submitted == s.fetched + s.freed + s.items && (s.freed != [] ==> Drained(s))
    && Distinct(s.executed) && (forall x :: x in s.executed ==> x in s.fetched)
    && (forall t: Tid, x: Item :: Busy(s, t, x) ==> x in s.fetched && x !in s.executed)
    && (forall t: Tid, u: Tid, x: Item :: Busy(s, t, x) && Busy(s, u, x) ==> t == u)
    && (forall x: Item :: x in s.fetched && x !in s.executed ==> exists t: Tid :: Busy(s, t, x))
  }

  /** Steps that neither start nor finish an item. */
  lemma IdleKeeps(s: State, z: State)
    requires Items(s) && z.submitted == s.submitted && z.fetched == s.fetched && z.executed == s.executed
    requires z.freed == s.freed && z.items == s.items && (s.freed != [] ==> Drained(z))
    requires forall t: Tid, x: Item :: Busy(z, t, x) <==> Busy(s, t, x)
    ensures Items(z)
  {
    forall x: Item | x in z.fetched && x !in z.executed ensures exists t: Tid :: Busy(z, t, x) {
      var t: Tid :| Busy(s, t, x);
      assert Busy(z, t, x);
    }
    hide Busy, Distinct;
  }

  lemma EnqueueKeeps(s: State, t: Tid, item: Item)
    requires Items(s) && Enabled(s, Enqueue(t, item))
    ensures Items(Step(s, Enqueue(t, item)))
  {
    var z := Step(s, Enqueue(t, item));
    assert s.freed == [];
    assert forall u: Tid, x: Item :: Busy(z, u, x) <==> Busy(s, u, x);
    forall x: Item | x in z.fetched && x !in z.executed ensures exists u: Tid :: Busy(z, u, x) {
      var u: Tid :| Busy(s, u, x);
      assert Busy(z, u, x);
    }
    assert z.submitted == z.fetched + z.freed + z.items;
    assert Distinct(z.submitted);
    hide Busy, Distinct;
  }

  lemma FetchItems(s: State, t: Tid)
    requires Items(s) && Enabled(s, Fetch(t)) && s.items != []
    ensures Items(Step(s, Fetch(t)))
  {
    var z, x := Step(s, Fetch(t)), s.items[0];
    assert s.freed == [] by { assert !Drained(s); }
    FirstIsNew(s);
    assert z.submitted == z.fetched + z.freed + z.items;
    assert forall u: Tid, y: Item :: Busy(z, u, y) <==> (if u == t then y == x else Busy(s, u, y));
    forall y: Item | y in z.fetched && y !in z.executed ensures exists u: Tid :: Busy(z, u, y) {
      if y == x {
        assert Busy(z, t, y);
      } else {
        var u: Tid :| Busy(s, u, y);
        assert Busy(z, u, y);
      }
    }
    hide Busy, Distinct;
  }

  lemma FirstIsNew(s: State)
    requires Distinct(s.submitted) && s.submitted == s.fetched + s.freed + s.items && s.items != []
    ensures s.items[0] !in s.fetched
  {
    var n := |s.fetched| + |s.freed|;
    assert s.submitted[n] == s.items[0];
    assert forall i :: 0 <= i < |s.fetched| ==> s.submitted[i] == s.fetched[i];
  }

  lemma FinishItems(s: State, t: Tid)
    requires Items(s) && Enabled(s, Finish(t))
    ensures Items(Step(s, Finish(t)))
  {
    var z, x := Step(s, Finish(t)), s.workers[t].item;
    assert Busy(s, t, x);
    assert forall u: Tid, y: Item :: Busy(z, u, y) <==> u != t && Busy(s, u, y);
    forall y: Item | y in z.fetched && y !in z.executed ensures exists u: Tid :: Busy(z, u, y) {
      var u: Tid :| Busy(s, u, y);
      assert Busy(z, u, y);
    }
    assert s.freed == [] by { assert !Drained(s); }
    hide Busy, Drained;
  }

  lemma DestroyItems(s: State)
    requires Items(s) && Enabled(s, Destroy)
    ensures Items(Step(s, Destroy))
  {
    var z := Step(s, Destroy);
    assert z.submitted == z.fetched + z.freed + z.items;
    assert forall u: Tid, y: Item :: !Busy(s, u, y) && !Busy(z, u, y);
    hide Busy, Distinct;
  }

  lemma ItemsKept(s: State, e: Event)
    requires Items(s) && Tokens(s) && Enabled(s, e)
    ensures Items(Step(s, e))
  {
    match e {
      case Fetch(t) => FetchKeeps(s, t); FetchItems(s, t);
      case Finish(t) => FinishItems(s, t);
      case Enqueue(t, item) => EnqueueKeeps(s, t, item);
      case Destroy => DestroyItems(s);
      case _ => IdleKeeps(s, Step(s, e));
    }
    hide Items, Tokens, S.Step;
  }

  ghost predicate Inv(s: State) { Tokens(s) && Items(s) }

  lemma {:induction false} RunKeeps(workers: set<Tid>, es: seq<Event>)
    requires Runs(Start(workers), es) && Roomy(Start(workers), es)
    ensures Inv(After(Start(workers), es))
  {
    if es == [] {
      StartHolds(workers);
    } else {
      hide Step, Tokens, Items, Enabled, Overflows;
      RunKeeps(workers, es[..|es| - 1]);
      TokensKept(After(Start(workers), es[..|es| - 1]), es[|es| - 1]);
      ItemsKept(After(Start(workers), es[..|es| - 1]), es[|es| - 1]);
    }
  }

  lemma StartHolds(workers: set<Tid>)
    ensures Inv(Start(workers))
  {
    var s := Start(workers);
    assert Those(s.workers, Holding) == {} && Those(s.workers, Fetching) == {};
  }

  lemma CountGrows(s: State, e: Event)
    requires Tokens(s) && !Overflows(s, e)
    ensures Step(s, e).sem.count <= s.sem.count + 1
  {
  }

  /** An overflow takes 2^31 - 1 posts. */
  lemma {:induction false} ShortRunsFit(workers: set<Tid>, es: seq<Event>)
    requires Runs(Start(workers), es) && |es| < 0x8000_0000
    ensures Roomy(Start(workers), es) && After(Start(workers), es).sem.count <= |es|
  {
    if es != [] {
      hide Step, Tokens, Items, Enabled;
      var n := |es| - 1;
      ShortRunsFit(workers, es[..n]);
      RunKeeps(workers, es[..n]);
      CountGrows(After(Start(workers), es[..n]), es[n]);
    }
  }

  // ----- before shutdown

  lemma StaysStep(s: State, e: Event)
    requires Enabled(s, e) && (!s.shutdown ==> forall t :: t in s.workers ==> s.workers[t] != Exited)
    ensures var z := Step(s, e);
      && z.workers.Keys == s.workers.Keys && (s.shutdown ==> z.shutdown)
      && (!z.shutdown ==> forall t :: t in z.workers ==> z.workers[t] != Exited)
  {
  }

  /** No worker leaves its loop before shutdown, in any run. */
  lemma {:induction false} NobodyLeaves(workers: set<Tid>, es: seq<Event>)
    requires Runs(Start(workers), es)
    ensures var s := After(Start(workers), es);
      s.workers.Keys == workers && (!s.shutdown ==> forall t :: t in workers ==> s.workers[t] != Exited)
  {
    if es != [] {
      hide Step, Enabled;
      NobodyLeaves(workers, es[..|es| - 1]);
      StaysStep(After(Start(workers), es[..|es| - 1]), es[|es| - 1]);
    }
  }

  /** A worker that is not asleep in the semaphore can go on. */
  lemma CanStep(s: State, t: Tid)
    requires t in s.workers && s.workers[t] != Exited && t !in s.sem.line.queue
    ensures Enabled(s, Next(s, t))
  {
  }

  /** There is always a worker that can go on while there is work and nobody is about to announce it. */
  lemma SomeoneAwake(s: State) returns (t: Tid)
    requires Tokens(s) && !s.shutdown && s.posting == {} && s.items != [] && s.workers.Keys != {}
    ensures t in s.workers && t !in s.sem.line.queue
  {
    if s.sem.line.queue == [] {
      t :| t in s.workers;
    } else if s.sem.count > 0 {
      t :| t in s.sem.line.pending;
    } else if Count(s.workers, Holding) > 0 {
      t :| t in Those(s.workers, Holding);
    } else {
      t :| t in Those(s.workers, Fetching);
    }
  }

  /** Work never waits for a worker that sleeps: in every run, while an item is queued, nobody is about
      to post and the pool is not shut down, some worker has a step to take. */
  lemma WorkGoesOn(workers: set<Tid>, es: seq<Event>)
    requires Runs(Start(workers), es) && Roomy(Start(workers), es) && workers != {}
    ensures var s := After(Start(workers), es);
      !s.shutdown && s.posting == {} && s.items != [] ==> exists t :: t in workers && Enabled(s, Next(s, t))
  {
    hide After, Runs, Roomy, Tokens, Items, Enabled, Next;
    var s := After(Start(workers), es);
    RunKeeps(workers, es);
    NobodyLeaves(workers, es);
    if !s.shutdown && s.posting == {} && s.items != [] {
      var t := SomeoneAwake(s);
      CanStep(s, t);
      assert t in workers;
    }
  }

  lemma ClosedStep(s: State, e: Event)
    requires s.shutdown && Enabled(s, e)
    ensures var z := Step(s, e);
      z.shutdown && z.checked <= s.checked && |z.submitted| + |z.checked| <= |s.submitted| + |s.checked|
  {
    if e.Enqueue? {
      assert |s.checked - {e.t}| == |s.checked| - 1;
    }
  }

  /** Shutdown closes the pool: from then on, whatever happens, only the submitters already past the
      test can still submit, each once. */
  lemma {:induction false} ClosedForGood(s: State, es: seq<Event>)
    requires s.shutdown && Runs(s, es)
    ensures var z := After(s, es);
      z.shutdown && z.checked <= s.checked && |z.submitted| + |z.checked| <= |s.submitted| + |s.checked|
  {
    if es != [] {
      hide Step, Enabled;
      ClosedForGood(s, es[..|es| - 1]);
      ClosedStep(After(s, es[..|es| - 1]), es[|es| - 1]);
    }
  }

  /** In every run a worker that got past both tests finds an item, the one submitted longest ago. */
  lemma TokenFindsItem(workers: set<Tid>, es: seq<Event>, t: Tid)
    requires Runs(Start(workers), es) && Roomy(Start(workers), es) && Enabled(After(Start(workers), es), Fetch(t))
    ensures var s := After(Start(workers), es);
      s.items != [] && |s.fetched| < |s.submitted| && Step(s, Fetch(t)).workers[t] == Running(s.submitted[|s.fetched|])
  {
    hide After, Runs, Roomy;
    RunKeeps(workers, es);
    Oldest(After(Start(workers), es), t);
    hide Tokens, Items;
  }

  /** After a destroy every submitted item was either run, exactly once, or freed unrun. */
  lemma OnceOrFreed(workers: set<Tid>, es: seq<Event>, x: Item)
    requires Runs(Start(workers), es) && Roomy(Start(workers), es)
    requires Drained(After(Start(workers), es)) && After(Start(workers), es).items == []
    requires x in After(Start(workers), es).submitted
    ensures var s := After(Start(workers), es);
      (x in s.executed) != (x in s.freed) && Distinct(s.executed) && Distinct(s.submitted)
  {
    hide After, Runs, Roomy;
    RunKeeps(workers, es);
    var s := After(Start(workers), es);
    assert forall u: Tid, y: Item :: !Busy(s, u, y);
    Disjoint(s, x);
    hide Tokens, Busy;
  }

  lemma Disjoint(s: State, x: Item)
    requires Distinct(s.submitted) && s.submitted == s.fetched + s.freed + s.items && s.items == [] && x in s.submitted
    ensures (x in s.fetched) != (x in s.freed)
  {
    assert forall i :: 0 <= i < |s.freed| ==> s.submitted[|s.fetched| + i] == s.freed[i];
    assert forall i :: 0 <= i < |s.fetched| ==> s.submitted[i] == s.fetched[i];
  }

  // ----- shutdown

  ghost function Members(q: seq<Tid>): set<Tid> { set t | t in q }

  lemma {:induction false} QueueCount(q: seq<Tid>)
    requires Distinct(q)
    ensures |Members(q)| == |q|
  {
    if q != [] {
      var n := |q| - 1;
      QueueCount(q[..n]);
      assert q[n] !in Members(q[..n]);
      assert Members(q) == Members(q[..n]) + {q[n]};
    } else {
      assert Members(q) == {};
    }
  }

  /** Once shutdown has made its posts, no worker is asleep in the semaphore. */
  lemma NobodyAsleep(s: State)
    requires Tokens(s) && s.shutdown && s.postsLeft == 0
    ensures s.sem.line.queue == []
  {
    var asleep := Members(s.sem.line.queue);
    QueueCount(s.sem.line.queue);
    assert asleep * s.sem.line.pending == {};
    assert |asleep + s.sem.line.pending| == |asleep| + |s.sem.line.pending|;
    Subset(asleep + s.sem.line.pending, Those(s.workers, Waiting));
  }

  lemma NobodyAsleepEver(workers: set<Tid>, es: seq<Event>)
    requires Runs(Start(workers), es) && Roomy(Start(workers), es)
    ensures var s := After(Start(workers), es); s.shutdown && s.postsLeft == 0 ==> s.sem.line.queue == []
  {
    hide After, Runs, Roomy, Tokens, Items;
    RunKeeps(workers, es);
    if After(Start(workers), es).shutdown && After(Start(workers), es).postsLeft == 0 {
      NobodyAsleep(After(Start(workers), es));
    }
  }

  predicate Works(e: Event) { e.Test? || e.Wait? || e.Recheck? || e.Fetch? || e.Finish? }

  /** How many steps a worker is from the end of its loop after shutdown. */
  function Rank(p: Phase): nat {
    match p
    case Top => 1
    case Waiting => 2
    case Holding => 1
    case Fetching => 3
    case Running(_) => 2
    case Exited => 0
  }

  /** The worker's next step. */
  function Next(s: State, t: Tid): Event {
    match s.At(t)
    case Top => Test(t)
    case Waiting => Wait(t)
    case Holding => Recheck(t)
    case Fetching => Fetch(t)
    case _ => Finish(t)
  }

  /** After shutdown's posts no worker can be stuck: each can step, and each step brings it closer to exit. */
  lemma WorkerAdvances(s: State, t: Tid)
    requires Tokens(s) && s.shutdown && s.postsLeft == 0 && t in s.workers && s.workers[t] != Exited
    ensures Enabled(s, Next(s, t))
    ensures var z := Step(s, Next(s, t));
      z.shutdown && z.postsLeft == 0 && z.workers == s.workers[t := z.At(t)] && Rank(z.At(t)) < Rank(s.At(t))
  {
    NobodyAsleep(s);
    CountPositive(s.workers, t);
    if s.workers[t] == Fetching {
      FetchKeeps(s, t);
    }
    hide S.Inv, S.Step, Count;
  }

  function Total(w: map<Tid, Phase>, ts: seq<Tid>): nat {
    if ts == [] then 0 else Total(w, ts[..|ts| - 1]) + (if ts[|ts| - 1] in w then Rank(w[ts[|ts| - 1]]) else 0)
  }

  lemma {:induction false} TotalMove(w: map<Tid, Phase>, ts: seq<Tid>, t: Tid, p: Phase)
    requires t in w && Rank(p) < Rank(w[t])
    ensures Total(w[t := p], ts) + (if t in ts then 1 else 0) <= Total(w, ts)
  {
    if ts != [] {
      TotalMove(w, ts[..|ts| - 1], t, p);
      assert t in ts <==> t in ts[..|ts| - 1] || t == ts[|ts| - 1];
    }
  }

  /** The worker steps of a run. */
  function Worked(es: seq<Event>): nat {
    if es == [] then 0 else Worked(es[..|es| - 1]) + if Works(es[|es| - 1]) then 1 else 0
  }

  /** From then on, whatever else happens, the workers take at most Total steps, and when no worker
      can step all have exited. */
  lemma {:induction false} WorkersFinish(s: State, ts: seq<Tid>, es: seq<Event>)
    requires Inv(s) && s.shutdown && s.postsLeft == 0 && Runs(s, es) && Roomy(s, es)
    requires forall t :: t in s.workers <==> t in ts
    ensures var z := After(s, es);
      && Inv(z) && z.shutdown && z.postsLeft == 0 && z.workers.Keys == s.workers.Keys
      && Total(z.workers, ts) + Worked(es) <= Total(s.workers, ts)
      && ((forall e :: Works(e) ==> !Enabled(z, e)) ==> forall t :: t in z.workers ==> z.workers[t] == Exited)
  {
    hide Step, Enabled, Inv;
    if es != [] {
      var n := |es| - 1;
      WorkersFinish(s, ts, es[..n]);
      WorkStep(After(s, es[..n]), ts, es[n]);
    }
    StuckIsDone(After(s, es));
  }

  lemma WorkStep(s: State, ts: seq<Tid>, e: Event)
    requires Inv(s) && s.shutdown && s.postsLeft == 0 && Enabled(s, e) && !Overflows(s, e)
    requires forall t :: t in s.workers <==> t in ts
    ensures var z := Step(s, e);
      && Inv(z) && z.shutdown && z.postsLeft == 0 && z.workers.Keys == s.workers.Keys
      && Total(z.workers, ts) + (if Works(e) then 1 else 0) <= Total(s.workers, ts)
  {
    TokensKept(s, e);
    ItemsKept(s, e);
    if Works(e) {
      assert e == Next(s, e.t) && s.workers[e.t] != Exited;
      WorkerAdvances(s, e.t);
      TotalMove(s.workers, ts, e.t, Step(s, e).At(e.t));
    } else {
      OthersWait(s, e);
    }
    hide Tokens, Items, Step;
  }

  lemma OthersWait(s: State, e: Event)
    requires s.shutdown && s.postsLeft == 0 && Enabled(s, e) && !Works(e)
    ensures var z := Step(s, e); z.shutdown && z.postsLeft == 0 && z.workers == s.workers
  {
  }

  lemma StuckIsDone(s: State)
    requires Inv(s) && s.shutdown && s.postsLeft == 0
    ensures (forall e :: Works(e) ==> !Enabled(s, e)) ==> forall t :: t in s.workers ==> s.workers[t] == Exited
  {
    forall t | t in s.workers && s.workers[t] != Exited ensures Works(Next(s, t)) && Enabled(s, Next(s, t)) {
      WorkerAdvances(s, t);
    }
    hide Tokens, Items, Step, Enabled;
  }

  class Pool {
    const sem: S.Semaphore
    var items: seq<Item>
    var count: nat
    var shutdown: bool
    const numWorkers: nat
    ghost var workers: map<Tid, Phase>
    ghost var checked: set<Tid>
    ghost var posting: set<Tid>
    ghost var postsLeft: nat
    ghost var submitted: seq<Item>
    ghost var fetched: seq<Item>
    ghost var executed: seq<Item>
    ghost var freed: seq<Item>

    ghost function Now(): State
      reads this, sem
    {
      State(sem.Now(), items, shutdown, postsLeft, workers, checked, posting, submitted, fetched, executed, freed)
    }

    ghost predicate Valid()
      reads this, sem
    {
      Inv(Now()) && count == |items| && numWorkers == |workers|
    }

    /** worker_pool_create with its threads started. */
    constructor (threads: set<Tid>)
      ensures Valid() && Now() == Start(threads) && numWorkers == |threads| && fresh(sem)
    {
      sem := new S.Semaphore(0, 0);
      items, count, shutdown, numWorkers := [], 0, false, |threads|;
      workers, checked, posting, postsLeft := map t | t in threads :: Top, {}, {}, 0;
      submitted, fetched, executed, freed := [], [], [], [];
      new;
      StartHolds(threads);
      assert workers.Keys == threads && |workers.Keys| == |workers|;
    }

    ghost predicate Can(e: Event)
      reads this, sem
    {
      Valid() && Enabled(Now(), e)
    }

    /** The first test of worker_pool_submit. */
    method CheckOpen(t: Tid) returns (open: bool)
      requires Can(Check(t))
      modifies this`checked
      ensures Valid() && Now() == Step(old(Now()), Check(t)) && open == !shutdown
      ensures checked == if open then old(checked) + {t} else old(checked)
    {
      hide Inv, Enabled;
      StepValid(Now(), Check(t));
      if shutdown {
        return false;
      }
      checked := checked + {t};
      return true;
    }

    method Append(t: Tid, item: Item)
      requires Can(Enqueue(t, item))
      modifies this`items, this`count, this`submitted, this`checked, this`posting
      ensures Valid() && Now() == Step(old(Now()), Enqueue(t, item))
      ensures items == old(items) + [item] && submitted == old(submitted) + [item] && t in posting
    {
      hide Inv, Enabled;
      StepValid(Now(), Enqueue(t, item));
      items, count := items + [item], count + 1;
      submitted, checked, posting := submitted + [item], checked - {t}, posting + {t};
    }

    /** The sem_post that ends worker_pool_submit. */
    method Announce(t: Tid)
      requires Can(Post(t))
      modifies this`posting, sem
      ensures Now() == Step(old(Now()), Post(t)) && (Valid() <==> !Overflows(old(Now()), Post(t)))
      ensures Valid() ==> sem.count == old(sem.count) + 1
    {
      hide Inv, Enabled, S.Inv, S.Step;
      StepValid(Now(), Post(t));
      SemSound(Now());
      var r := sem.Post();
      posting := posting - {t};
    }

    /** The loop test of a worker. */
    method Continue(t: Tid) returns (on: bool)
      requires Can(Test(t))
      modifies this`workers
      ensures Valid() && Now() == Step(old(Now()), Test(t)) && on == !shutdown
      ensures workers == old(workers)[t := if on then Waiting else Exited]
    {
      hide Inv;
      MoveSize(workers, t, if shutdown then Exited else Waiting);
      StepValid(Now(), Test(t));
      on := !shutdown;
      workers := workers[t := if shutdown then Exited else Waiting];
    }

    /** One pass of the worker's sem_wait. */
    method TakeToken(t: Tid) returns (taken: bool)
      requires Can(Wait(t))
      modifies this`workers, sem
      ensures Valid() && Now() == Step(old(Now()), Wait(t)) && taken == (old(Now()).sem.count > 0)
      ensures taken ==> sem.count == old(sem.count) - 1 && workers == old(workers)[t := Holding]
      ensures !taken ==> sem.waiters == old(sem.waiters) + [t] && workers == old(workers)
    {
      hide Inv, S.Inv, S.Step;
      MoveSize(workers, t, Holding);
      StepValid(Now(), Wait(t));
      SemSound(Now());
      taken := sem.Wait(t);
      if taken {
        workers := workers[t := Holding];
      }
    }

    /** The second shutdown test and, when it passes, the dequeue; the item is always there. */
    method Resume(t: Tid) returns (on: bool)
      requires Can(Recheck(t))
      modifies this`workers
      ensures Valid() && Now() == Step(old(Now()), Recheck(t)) && on == !shutdown
      ensures workers == old(workers)[t := if on then Fetching else Exited]
    {
      hide Inv;
      MoveSize(workers, t, if shutdown then Exited else Fetching);
      StepValid(Now(), Recheck(t));
      on := !shutdown;
      workers := workers[t := if shutdown then Exited else Fetching];
    }

    method Dequeue(t: Tid) returns (item: Option<Item>)
      requires Can(Fetch(t))
      modifies this`items, this`count, this`workers, this`fetched
      ensures Valid() && Now() == Step(old(Now()), Fetch(t))
      ensures |old(fetched)| < |submitted| && item == Some(submitted[|old(fetched)|])
    {
      hide Inv;
      StepValid(Now(), Fetch(t));
      Oldest(Now(), t);
      if items == [] {
        return None;
      }
      MoveSize(workers, t, Running(items[0]));
      item := Some(items[0]);
      workers, fetched := workers[t := Running(items[0])], fetched + [items[0]];
      items, count := items[1..], count - 1;
    }

    method Done(t: Tid)
      requires Can(Finish(t))
      modifies this`workers, this`executed
      ensures Valid() && Now() == Step(old(Now()), Finish(t))
      ensures t in old(workers) && old(workers)[t].Running? && executed == old(executed) + [old(workers)[t].item]
    {
      hide Inv;
      StepValid(Now(), Finish(t));
      MoveSize(workers, t, Top);
      executed := executed + [workers[t].item];
      workers := workers[t := Top];
    }

    method BeginShutdown()
      requires Can(Shutdown)
      modifies this`shutdown, this`postsLeft
      ensures Valid() && Now() == Step(old(Now()), Shutdown) && postsLeft == numWorkers
    {
      hide Inv;
      StepValid(Now(), Shutdown);
      shutdown, postsLeft := true, numWorkers;
    }

    method WakeOne()
      requires Can(ShutdownPost)
      modifies this`postsLeft, sem
      ensures Now() == Step(old(Now()), ShutdownPost) && (Valid() <==> !Overflows(old(Now()), ShutdownPost))
      ensures Valid() ==> sem.count == old(sem.count) + 1
    {
      hide Inv, S.Inv, S.Step;
      StepValid(Now(), ShutdownPost);
      SemSound(Now());
      var r := sem.Post();
      postsLeft := postsLeft - 1;
    }

    /** worker_pool_destroy frees the queue item by item. */
    method Dispose()
      requires Can(Destroy)
      modifies this`items, this`count, this`freed
      ensures Valid() && Now() == Step(old(Now()), Destroy) && items == [] && freed == old(freed) + old(items)
    {
      hide Inv, Enabled;
      ghost var s := Now();
      StepValid(s, Destroy);
      while items != []
        invariant Now() == s.(items := items, freed := freed) && freed + items == s.freed + s.items
        decreases |items|
      {
        freed := freed + [items[0]];
        items := items[1..];
      }
      assert freed == freed + items;
      count := 0;
    }
  }

  lemma StepValid(s: State, e: Event)
    requires Inv(s) && Enabled(s, e)
    ensures Inv(Step(s, e)) <==> !Overflows(s, e)
  {
    hide Tokens, Items, Step, Enabled, Overflows;
    TokensIff(s, e);
    ItemsKept(s, e);
  }

  lemma SemSound(s: State)
    requires Inv(s)
    ensures S.Inv(s.sem) && s.sem.limit == 0
  {
  }

  lemma MoveSize(w: map<Tid, Phase>, t: Tid, p: Phase)
    requires t in w
    ensures |w[t := p]| == |w|
  {
    assert w[t := p].Keys == w.Keys;
    assert |w.Keys| == |w| && |w[t := p].Keys| == |w[t := p]|;
  }

  lemma Oldest(s: State, t: Tid)
    requires Inv(s) && Enabled(s, Fetch(t))
    ensures s.items != [] && |s.fetched| < |s.submitted| && s.submitted[|s.fetched|] == s.items[0]
  {
    FetchKeeps(s, t);
    assert s.freed == [] by { assert !Drained(s); }
    hide Tokens;
  }
}
