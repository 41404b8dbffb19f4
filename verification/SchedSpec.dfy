/** The scheduler as a transition system over its run queues, sleep queue and wait queues. */
module SchedSpec {
  import opened Basics
  import opened Constants

  type Tid = nat

  /** Where a thread is: running, in a run queue, in the sleep queue, in a wait queue, or (the idle
      thread only) parked. `Moving` is between two lists, inside one operation. */
  datatype Place = Running | Ready(p: nat) | Asleep | Blocked(w: nat) | Parked | Moving {
    predicate Listed() { Ready? || Asleep? || Blocked? }
  }

  datatype Info = Info(priority: nat, nice: int, boosted: bool, waitStart: nat, wakeTick: nat, kernel: bool,
                       slice: nat, preemptCount: nat)

  /** `lists` holds the run queues, the sleep queue and the wait queues by place. */
  datatype State = State(lists: map<Place, seq<Tid>>, place: map<Tid, Place>, info: map<Tid, Info>, current: Tid,
      idle: Tid) {
    function List(l: Place): seq<Tid> { if l in lists then lists[l] else [] }

    function Of(t: Tid): Info { if t in info then info[t] else Info(NORMAL, 0, false, 0, 0, true, 0, 0) }

    function At(t: Tid): Place { if t in place then place[t] else Moving }

    function With(t: Tid, i: Info): State { this.(info := info[t := i]) }

    function SetPlace(t: Tid, l: Place): State { this.(place := place[t := l]) }

    /** Thread `t` goes into list `l` at position `n`. */
    function Into(t: Tid, l: Place, n: nat): State
      requires n <= |List(l)|
    {
      this.(lists := lists[l := Insert(List(l), n, t)], place := place[t := l])
    }

    /** The thread at position `n` of list `l` is taken out. */
    function OutOf(l: Place, n: nat): State
      requires n < |List(l)|
    {
      this.(lists := lists[l := Delete(List(l), n)], place := place[List(l)[n] := Moving])
    }
  }

  /** scheduler_nice_to_priority. */
  function NiceToPriority(nice: int): (p: nat)
    ensures p < PRIORITIES
  {
    if nice <= -10 then UI else if nice <= -5 then 3 else if nice <= 4 then NORMAL else if nice <= 14 then 1 else 0
  }

  /** scheduler_get_time_slice. */
  function TimeSlice(priority: nat): nat {
    match priority
    case 0 => 20
    case 1 => 15
    case 3 => 7
    case 4 => 5
    case _ => 10
  }

  // ----- placement

  /** List `l` is duplicate-free and holds exactly the threads placed there. */
  ghost predicate Holds(s: State, l: Place) {
    Distinct(s.List(l)) && forall t :: t in s.List(l) <==> t in s.place && s.place[t] == l
  }

  /** No thread is lost, duplicated or in two places. */
  ghost predicate Placed(s: State) {
    s.info.Keys == s.place.Keys && forall l: Place :: l.Listed() ==> Holds(s, l)
  }

  function Insert(q: seq<Tid>, n: nat, t: Tid): seq<Tid>
    requires n <= |q|
  {
    q[..n] + [t] + q[n..]
  }

  function Delete(q: seq<Tid>, n: nat): seq<Tid>
    requires n < |q|
  {
    q[..n] + q[n + 1..]
  }

  lemma InsertDistinct(q: seq<Tid>, n: nat, t: Tid)
    requires Distinct(q) && t !in q && n <= |q|
    ensures Distinct(Insert(q, n, t))
  {
  }

  lemma InsertMembers(q: seq<Tid>, n: nat, t: Tid, x: Tid)
    requires n <= |q|
    ensures x in Insert(q, n, t) <==> x in q || x == t
  {
    assert q == q[..n] + q[n..];
  }

  lemma DeleteMembers(q: seq<Tid>, n: nat, x: Tid)
    requires Distinct(q) && n < |q|
    ensures Distinct(Delete(q, n)) && (x in Delete(q, n) <==> x in q && x != q[n])
  {
    var r := Delete(q, n);
    assert forall i :: 0 <= i < |r| ==> r[i] == q[if i < n then i else i + 1];
    if x in q && x != q[n] {
      var k :| 0 <= k < |q| && q[k] == x;
      assert r[if k < n then k else k - 1] == x;
    }
  }

  lemma IntoHolds(s: State, t: Tid, l: Place, n: nat, m: Place)
    requires Placed(s) && t in s.place && !s.place[t].Listed() && l.Listed() && m.Listed() && n <= |s.List(l)|
    ensures Holds(s.Into(t, l, n), m)
  {
    hide Insert, Distinct;
    assert Holds(s, m);
    if m == l {
      InsertDistinct(s.List(l), n, t);
      forall x: Tid ensures x in Insert(s.List(l), n, t) <==> x in s.List(l) || x == t {
        InsertMembers(s.List(l), n, t, x);
      }
    }
  }

  lemma IntoPlaced(s: State, t: Tid, l: Place, n: nat)
    requires Placed(s) && t in s.place && !s.place[t].Listed() && l.Listed() && n <= |s.List(l)|
    ensures Placed(s.Into(t, l, n))
  {
    forall m: Place | m.Listed() ensures Holds(s.Into(t, l, n), m) {
      IntoHolds(s, t, l, n, m);
    }
    hide Holds;
  }

  lemma OutOfHolds(s: State, l: Place, n: nat, m: Place)
    requires Placed(s) && l.Listed() && m.Listed() && n < |s.List(l)|
    ensures Holds(s.OutOf(l, n), m) && s.List(l)[n] in s.place && s.place[s.List(l)[n]] == l
  {
    hide Delete, Distinct;
    assert Holds(s, m) && Holds(s, l);
    assert s.List(l)[n] in s.List(l);
    DeleteMembers(s.List(l), n, s.List(l)[n]);
    forall x: Tid ensures x in Delete(s.List(l), n) <==> x in s.List(l) && x != s.List(l)[n] {
      DeleteMembers(s.List(l), n, x);
    }
  }

  lemma OutOfPlaced(s: State, l: Place, n: nat)
    requires Placed(s) && l.Listed() && n < |s.List(l)|
    ensures Placed(s.OutOf(l, n)) && s.List(l)[n] in s.place && s.place[s.List(l)[n]] == l
  {
    forall m: Place | m.Listed() ensures Holds(s.OutOf(l, n), m) {
      OutOfHolds(s, l, n, m);
    }
    OutOfHolds(s, l, n, l);
    hide Holds;
  }

  /** Changing the place of a thread that is in no list. */
  lemma SetPlacePlaced(s: State, t: Tid, l: Place)
    requires Placed(s) && t in s.place && !s.place[t].Listed() && !l.Listed()
    ensures Placed(s.SetPlace(t, l))
  {
    forall m: Place | m.Listed() ensures Holds(s.SetPlace(t, l), m) {
      assert Holds(s, m);
    }
  }

  // ----- the invariant

  /** Run queue `p` holds threads of priority `p`. */
  ghost predicate Prioritized(s: State) {
    forall t :: t in s.place ==>
      s.Of(t).priority < PRIORITIES && (s.place[t].Ready? ==> s.place[t].p == s.Of(t).priority)
  }

  ghost predicate SortedBy(s: State, q: seq<Tid>) {
    forall i, j :: 0 <= i < j < |q| ==> s.Of(q[i]).wakeTick <= s.Of(q[j]).wakeTick
  }

  /** What holds at every moment, also inside an operation. */
  ghost predicate Core(s: State) {
    Placed(s) && Prioritized(s) && SortedBy(s, s.List(Asleep)) && s.idle in s.place && s.current in s.place
  }

  /** Between operations one thread runs, none is in transit, and only the idle thread is parked;
      the idle thread never sleeps or blocks. */
  ghost predicate Rested(s: State) {
    && (forall t :: t in s.place ==> (s.place[t] == Running <==> t == s.current) && s.place[t] != Moving
                                     && (s.place[t] == Parked ==> t == s.idle))
    && s.idle in s.place && s.place[s.idle] != Asleep && !s.place[s.idle].Blocked?
  }

  ghost predicate Inv(s: State) { Core(s) && Rested(s) }

  // ----- the operations

  /** scheduler_enqueue: at the head of the queue of the thread's priority. */
  function Enqueue(s: State, t: Tid): State {
    s.Into(t, Ready(if s.Of(t).priority >= PRIORITIES then NORMAL else s.Of(t).priority), 0)
  }

  /** The highest non-empty run queue below `n`, or -1. */
  function Top(s: State, n: nat): (p: int)
    ensures -1 <= p < n && (p >= 0 ==> s.List(Ready(p)) != [])
    ensures forall k: nat :: p < k < n ==> s.List(Ready(k)) == []
  {
    if n == 0 then -1 else if s.List(Ready(n - 1)) != [] then n - 1 else Top(s, n - 1)
  }

  function Demoted(i: Info): Info {
    if i.boosted then i.(boosted := false, priority := NiceToPriority(i.nice)) else i
  }

  /** Hand the processor from the current thread to `next`, which is in no list; a current thread
      that is still running goes back to its run queue. */
  function Switch(s: State, next: Tid, now: nat): State {
    Requeue(s, now).(current := next).SetPlace(next, Running)
  }

  function Requeue(s: State, now: nat): State {
    var c := s.current;
    var a := s.With(c, Demoted(s.Of(c)));
    if s.At(c) == Running then Enqueue(a.With(c, a.Of(c).(waitStart := now)).SetPlace(c, Moving), c) else a
  }

  /** scheduler_schedule. */
  function Schedule(s: State, now: nat): State {
    var p := Top(s, PRIORITIES);
    if p >= 0 then Switch(s.OutOf(Ready(p), 0), s.List(Ready(p))[0], now)
    else if s.idle == s.current then s
    else Switch(s.SetPlace(s.idle, Moving), s.idle, now)
  }

  lemma WithCore(s: State, t: Tid, i: Info)
    requires Core(s) && t in s.place && i.priority < PRIORITIES
    requires s.place[t] == Asleep ==> i.wakeTick == s.Of(t).wakeTick
    requires s.place[t].Ready? ==> i.priority == s.Of(t).priority
    ensures Core(s.With(t, i)) && s.With(t, i).place == s.place && s.With(t, i).lists == s.lists
  {
    var z := s.With(t, i);
    forall l: Place | l.Listed() ensures Holds(z, l) {
      assert Holds(s, l);
    }
    WithSorted(s, t, i);
    hide Holds, SortedBy;
  }

  lemma WithSorted(s: State, t: Tid, i: Info)
    requires SortedBy(s, s.List(Asleep)) && Holds(s, Asleep) && t in s.place
    requires s.place[t] == Asleep ==> i.wakeTick == s.Of(t).wakeTick
    ensures SortedBy(s.With(t, i), s.List(Asleep))
  {
    var q, z := s.List(Asleep), s.With(t, i);
    forall k | 0 <= k < |q| ensures z.Of(q[k]).wakeTick == s.Of(q[k]).wakeTick {
      assert q[k] in q;
    }
  }

  lemma IntoCore(s: State, t: Tid, l: Place, n: nat)
    requires Core(s) && t in s.place && !s.place[t].Listed() && l.Listed() && l != Asleep && n <= |s.List(l)|
    requires l.Ready? ==> l.p == s.Of(t).priority
    ensures Core(s.Into(t, l, n))
  {
    IntoPlaced(s, t, l, n);
    SameSorted(s, s.Into(t, l, n), s.List(Asleep));
    hide Placed, SortedBy;
  }

  lemma OutOfCore(s: State, l: Place, n: nat)
    requires Core(s) && l.Listed() && n < |s.List(l)|
    ensures Core(s.OutOf(l, n)) && s.List(l)[n] in s.place && s.place[s.List(l)[n]] == l
  {
    OutOfPlaced(s, l, n);
    var z := s.OutOf(l, n);
    if l == Asleep {
      DeleteSorted(s, s.List(l), n);
    }
    SameSorted(s, z, z.List(Asleep));
    hide Placed, SortedBy, Delete;
  }

  lemma DeleteSorted(s: State, q: seq<Tid>, n: nat)
    requires SortedBy(s, q) && n < |q|
    ensures SortedBy(s, Delete(q, n))
  {
    var r := Delete(q, n);
    forall i, j | 0 <= i < j < |r| ensures s.Of(r[i]).wakeTick <= s.Of(r[j]).wakeTick {
      assert r[i] == q[if i < n then i else i + 1] && r[j] == q[if j < n then j else j + 1];
    }
  }

  lemma SameSorted(s: State, z: State, q: seq<Tid>)
    requires SortedBy(s, q) && z.info == s.info
    ensures SortedBy(z, q)
  {
  }

  lemma SetPlaceCore(s: State, t: Tid, l: Place)
    requires Core(s) && t in s.place && !s.place[t].Listed() && !l.Listed()
    ensures Core(s.SetPlace(t, l))
  {
    SetPlacePlaced(s, t, l);
    SameSorted(s, s.SetPlace(t, l), s.List(Asleep));
    hide Placed, SortedBy;
  }

  lemma EnqueueCore(s: State, t: Tid)
    requires Core(s) && t in s.place && !s.place[t].Listed()
    ensures Core(Enqueue(s, t)) && Enqueue(s, t).place == s.place[t := Ready(s.Of(t).priority)]
    ensures Enqueue(s, t).info == s.info
  {
    assert s.Of(t).priority < PRIORITIES;
    IntoCore(s, t, Ready(s.Of(t).priority), 0);
    hide Core;
  }

  /** Ready to reschedule: the current thread is running or has just left for a sleep or wait queue. */
  ghost predicate Poised(s: State) {
    && Core(s) && (s.place[s.current] == Running || s.place[s.current] == Asleep || s.place[s.current].Blocked?)
    && s.place[s.idle] != Asleep && !s.place[s.idle].Blocked?
    && forall t :: t in s.place ==>
         && (s.place[t] == Running ==> t == s.current) && s.place[t] != Moving && (s.place[t] == Parked ==> t == s.idle)
  }

  /** The next thread has been chosen and is in no list. */
  ghost predicate Leaving(s: State, next: Tid) {
    && Core(s) && next != s.current && next in s.place && s.place[next] == Moving
    && (s.place[s.current] == Running || s.place[s.current] == Asleep || s.place[s.current].Blocked?)
    && (s.idle == next || (s.place[s.idle] != Asleep && !s.place[s.idle].Blocked?))
    && forall t :: t in s.place ==>
         && (s.place[t] == Running ==> t == s.current) && (s.place[t] == Moving ==> t == next)
         && (s.place[t] == Parked ==> t == s.idle)
  }

  /** What a switch leaves alone: every list but the run queue the old current thread may join. */
  ghost predicate Switched(s: State, z: State, next: Tid) {
    && z.current == next && z.idle == s.idle && z.place.Keys == s.place.Keys
    && (forall t :: t in s.place && t != s.current && t != next ==>
          t in z.place && z.place[t] == s.place[t] && z.Of(t) == s.Of(t))
    && z.Of(next) == s.Of(next) && z.At(next) == Running
    && if s.At(s.current) == Running
       then
         var p := z.Of(s.current).priority;
         z.lists == s.lists[Ready(p) := [s.current] + s.List(Ready(p))] && z.At(s.current) == Ready(p)
       else
         && z.lists == s.lists && z.At(s.current) == s.At(s.current)
         && z.Of(s.current).wakeTick == s.Of(s.current).wakeTick
  }

  /** The current thread as it goes back to its queue. */
  function Back(s: State, now: nat): Info {
    var i := Demoted(s.Of(s.current));
    if s.At(s.current) == Running then i.(waitStart := now) else i
  }

  lemma RequeueKeeps(s: State, now: nat)
    requires Core(s) && (s.place[s.current] == Running || s.place[s.current] == Asleep || s.place[s.current].Blocked?)
    ensures var c, b, p := s.current, Requeue(s, now), Back(s, now).priority;
      && Core(b) && b.info == s.info[c := Back(s, now)] && b.current == c && b.idle == s.idle
      && (if s.place[c] == Running
          then b.place == s.place[c := Ready(p)] && b.lists == s.lists[Ready(p) := [c] + s.List(Ready(p))]
          else b.place == s.place && b.lists == s.lists)
  {
    hide Core, Insert;
    CoreKeys(s);
    var c := s.current;
    var i := Demoted(s.Of(c));
    WithCore(s, c, i);
    if s.place[c] == Running {
      var a := s.With(c, i);
      var b := a.With(c, i.(waitStart := now));
      WithCore(a, c, i.(waitStart := now));
      SetPlaceCore(b, c, Moving);
      EnqueueCore(b.SetPlace(c, Moving), c);
      InsertFront(s.List(Ready(i.priority)), c);
    }
  }

  lemma InsertFront(q: seq<Tid>, t: Tid)
    ensures Insert(q, 0, t) == [t] + q
  {
  }

  lemma SwitchKeeps(s: State, next: Tid, now: nat)
    requires Leaving(s, next)
    ensures Inv(Switch(s, next, now)) && Switched(s, Switch(s, next, now), next)
  {
    assert Back(s, now).wakeTick == s.Of(s.current).wakeTick;
    hide Core, Requeue, Back, Rested, Switched;
    CoreKeys(s);
    RequeueKeeps(s, now);
    SwitchEnd(Requeue(s, now), next);
    SwitchRests(s, Requeue(s, now), next, Back(s, now));
    SwitchLists(s, Requeue(s, now), next, Back(s, now));
  }

  lemma SwitchRests(s: State, b: State, next: Tid, i: Info)
    requires Leaving(s, next) && b.idle == s.idle
    requires b.place == if s.place[s.current] == Running then s.place[s.current := Ready(i.priority)] else s.place
    ensures Rested(b.(current := next).SetPlace(next, Running))
  {
    CoreKeys(s);
    hide Core;
  }

  lemma SwitchLists(s: State, b: State, next: Tid, i: Info)
    requires next != s.current && s.current in s.place && next in s.place && s.info.Keys == s.place.Keys
    requires b.idle == s.idle && b.info == s.info[s.current := i] && i.wakeTick == s.Of(s.current).wakeTick
    requires b.place == if s.place[s.current] == Running then s.place[s.current := Ready(i.priority)] else s.place
    requires b.lists == if s.place[s.current] == Running
                        then s.lists[Ready(i.priority) := [s.current] + s.List(Ready(i.priority))] else s.lists
    ensures Switched(s, b.(current := next).SetPlace(next, Running), next)
  {
  }

  lemma CoreKeys(s: State)
    requires Core(s)
    ensures s.info.Keys == s.place.Keys && s.idle in s.place && s.current in s.place
    ensures forall t :: t in s.place ==> s.Of(t).priority < PRIORITIES
  {
  }

  lemma SwitchEnd(b: State, next: Tid)
    requires Core(b) && next in b.place && b.place[next] == Moving
    ensures Core(b.(current := next).SetPlace(next, Running))
  {
    SetPlaceCore(b, next, Running);
    var m := b.SetPlace(next, Running);
    var z := b.(current := next).SetPlace(next, Running);
    forall l: Place | l.Listed() ensures Holds(z, l) {
      assert Holds(m, l);
    }
    SameSorted(m, z, z.List(Asleep));
    hide Holds, SortedBy;
  }

  /** What scheduler_schedule does to the threads it is not about. */
  ghost predicate Scheduled(s: State, z: State) {
    && z.place.Keys == s.place.Keys && z.idle == s.idle
    && (forall t :: t in s.place && (s.place[t] == Asleep || s.place[t].Blocked?) ==>
          z.place[t] == s.place[t] && z.Of(t).wakeTick == s.Of(t).wakeTick)
    && (forall t :: t in s.place && z.place[t] == Asleep ==> s.place[t] == Asleep)
    && forall t :: t in s.place && s.place[t].Ready? ==> z.place[t].Ready? || z.place[t] == Running
  }

  /** scheduler_schedule from any poised state restores the invariant, and takes the head of the
      highest non-empty run queue, or the idle thread when all are empty. */
  lemma ScheduleKeeps(s: State, now: nat)
    requires Poised(s)
    ensures var z, p := Schedule(s, now), Top(s, PRIORITIES);
      && Inv(z) && Scheduled(s, z) && z.current == if p >= 0 then s.List(Ready(p))[0] else s.idle
  {
    hide Core, Switch, Top, Rested, Switched, Leaving;
    CoreKeys(s);
    var p := Top(s, PRIORITIES);
    if p >= 0 {
      TakeReady(s, p, 0);
      var a, next := s.OutOf(Ready(p), 0), s.List(Ready(p))[0];
      SwitchKeeps(a, next, now);
      OutOfCore(s, Ready(p), 0);
      ScheduledFrom(s, a, Switch(a, next, now), next);
    } else if s.idle != s.current {
      IdleParked(s);
      SetPlaceCore(s, s.idle, Moving);
      var a := s.SetPlace(s.idle, Moving);
      IdleLeaving(s, a);
      SwitchKeeps(a, s.idle, now);
      ScheduledFrom(s, a, Switch(a, s.idle, now), s.idle);
    } else {
      PoisedRests(s);
    }
  }

  lemma PoisedRests(s: State)
    requires Poised(s) && s.idle == s.current
    ensures Rested(s)
  {
    CoreKeys(s);
    hide Core;
  }

  lemma IdleLeaving(s: State, a: State)
    requires Poised(s) && s.idle != s.current && a == s.SetPlace(s.idle, Moving) && Core(a)
    ensures Leaving(a, s.idle)
  {
    hide Core;
  }

  lemma ScheduledFrom(s: State, a: State, z: State, next: Tid)
    requires next in s.place && s.current in s.place && s.place[next] != Asleep && !s.place[next].Blocked?
    requires a.place == s.place[next := Moving] && a.info == s.info && a.current == s.current && a.idle == s.idle
    requires next != s.current
    requires Switched(a, z, next)
    ensures Scheduled(s, z) && z.current == next
  {
  }

  lemma TakeReady(s: State, p: nat, n: nat)
    requires Poised(s) && n < |s.List(Ready(p))|
    ensures Leaving(s.OutOf(Ready(p), n), s.List(Ready(p))[n])
  {
    OutOfCore(s, Ready(p), n);
    hide Core;
  }

  lemma IdleParked(s: State)
    requires Poised(s) && Top(s, PRIORITIES) < 0 && s.idle != s.current
    ensures s.place[s.idle] == Parked
  {
    forall t | t in s.place && s.place[t].Ready? ensures s.place[t].p < PRIORITIES && t in s.List(s.place[t]) {
      ReadyIsListed(s, t);
    }
    hide Core;
  }

  lemma ReadyIsListed(s: State, t: Tid)
    requires Core(s) && t in s.place && s.place[t].Ready?
    ensures s.place[t].p < PRIORITIES && t in s.List(s.place[t])
  {
    assert Holds(s, s.place[t]);
  }

  // ----- sleeping and blocking

  /** The place of a thread that wakes at `tick`: behind everyone who wakes no later. */
  function SlotFor(s: State, q: seq<Tid>, tick: nat): nat {
    if q == [] || tick < s.Of(q[0]).wakeTick then 0 else 1 + SlotFor(s, q[1..], tick)
  }

  lemma {:induction false} SlotForIs(s: State, q: seq<Tid>, tick: nat)
    ensures SlotFor(s, q, tick) <= |q|
    ensures forall i :: 0 <= i < SlotFor(s, q, tick) ==> s.Of(q[i]).wakeTick <= tick
    ensures SortedBy(s, q) ==> forall i :: SlotFor(s, q, tick) <= i < |q| ==> tick < s.Of(q[i]).wakeTick
  {
    if q != [] && s.Of(q[0]).wakeTick <= tick {
      SlotForIs(s, q[1..], tick);
      var n := SlotFor(s, q[1..], tick);
      assert forall i :: 0 < i < |q| ==> q[i] == q[1..][i - 1];
      assert SortedBy(s, q) ==> SortedBy(s, q[1..]);
    }
  }

  function ToSleep(s: State, tick: nat): State {
    var a := s.With(s.current, s.Of(s.current).(wakeTick := tick));
    SlotForIs(a, a.List(Asleep), tick);
    a.Into(s.current, Asleep, SlotFor(a, a.List(Asleep), tick))
  }

  function ToBlock(s: State, w: nat): State { s.Into(s.current, Blocked(w), |s.List(Blocked(w))|) }

  lemma InsertSorted(s: State, q: seq<Tid>, n: nat, t: Tid)
    requires SortedBy(s, q) && n <= |q|
    requires forall i :: 0 <= i < n ==> s.Of(q[i]).wakeTick <= s.Of(t).wakeTick
    requires forall i :: n <= i < |q| ==> s.Of(t).wakeTick <= s.Of(q[i]).wakeTick
    ensures SortedBy(s, Insert(q, n, t))
  {
    var r := Insert(q, n, t);
    forall i, j | 0 <= i < j < |r| ensures s.Of(r[i]).wakeTick <= s.Of(r[j]).wakeTick {
      assert i < n ==> r[i] == q[i];
      assert i > n ==> r[i] == q[i - 1];
      assert j < n ==> r[j] == q[j];
      assert j > n ==> r[j] == q[j - 1];
    }
  }

  lemma AsleepCore(a: State, tick: nat)
    requires Core(a) && a.place[a.current] == Running && a.Of(a.current).wakeTick == tick
    ensures SlotFor(a, a.List(Asleep), tick) <= |a.List(Asleep)|
    ensures Core(a.Into(a.current, Asleep, SlotFor(a, a.List(Asleep), tick)))
  {
    SlotForIs(a, a.List(Asleep), tick);
    var n := SlotFor(a, a.List(Asleep), tick);
    var z := a.Into(a.current, Asleep, n);
    IntoPlaced(a, a.current, Asleep, n);
    InsertSorted(a, a.List(Asleep), n, a.current);
    SameSorted(a, z, z.List(Asleep));
    hide Placed, SortedBy, SlotFor;
  }

  lemma ToSleepPoised(s: State, tick: nat)
    requires Inv(s) && s.current != s.idle
    ensures Poised(ToSleep(s, tick)) && ToSleep(s, tick).place == s.place[s.current := Asleep]
  {
    hide Core, SlotFor, Insert;
    CoreKeys(s);
    var i := s.Of(s.current).(wakeTick := tick);
    WithCore(s, s.current, i);
    AsleepCore(s.With(s.current, i), tick);
  }

  lemma ToBlockPoised(s: State, w: nat)
    requires Inv(s) && s.current != s.idle
    ensures Poised(ToBlock(s, w)) && ToBlock(s, w).place == s.place[s.current := Blocked(w)]
  {
    hide Core, Insert;
    CoreKeys(s);
    IntoCore(s, s.current, Blocked(w), |s.List(Blocked(w))|);
  }

  // ----- waking

  /** Thread `n` of a sleep or wait queue becomes ready. */
  function Woken(s: State, l: Place, n: nat): State
    requires n < |s.List(l)|
  {
    Enqueue(s.OutOf(l, n), s.List(l)[n])
  }

  lemma WokenKeeps(s: State, l: Place, n: nat)
    requires Inv(s) && (l == Asleep || l.Blocked?) && n < |s.List(l)|
    ensures var t, z := s.List(l)[n], Woken(s, l, n);
      && Inv(z) && t in s.place && s.place[t] == l && z.place == s.place[t := Ready(s.Of(t).priority)]
      && z.info == s.info
      && z.List(l) == Delete(s.List(l), n) && z.current == s.current && z.idle == s.idle
      && forall m: Place :: m != l && !m.Ready? ==> z.List(m) == s.List(m)
  {
    hide Core, Insert, Delete;
    CoreKeys(s);
    OutOfCore(s, l, n);
    EnqueueCore(s.OutOf(l, n), s.List(l)[n]);
  }

  /** scheduler_wake_sleeping. */
  function WakeDue(s: State, now: nat): State
    decreases |s.List(Asleep)|
  {
    if s.List(Asleep) == [] || s.Of(s.List(Asleep)[0]).wakeTick > now then s else WakeDue(Woken(s, Asleep, 0), now)
  }

  /** Exactly the threads whose tick has come leave the sleep queue. */
  ghost predicate WokeDue(s: State, z: State, now: nat) {
    && z.info == s.info && z.place.Keys == s.place.Keys && z.current == s.current && z.idle == s.idle
    && forall t :: t in s.place ==>
         z.place[t] == if s.place[t] == Asleep && s.Of(t).wakeTick <= now then Ready(s.Of(t).priority) else s.place[t]
  }

  lemma {:induction false} WakeDueKeeps(s: State, now: nat)
    requires Inv(s)
    ensures Inv(WakeDue(s, now)) && WokeDue(s, WakeDue(s, now), now)
    decreases |s.List(Asleep)|
  {
    if s.List(Asleep) == [] || s.Of(s.List(Asleep)[0]).wakeTick > now {
      NoneDue(s, now);
    } else {
      WokenKeeps(s, Asleep, 0);
      WakeDueKeeps(Woken(s, Asleep, 0), now);
    }
    hide Inv, Woken;
  }

  lemma NoneDue(s: State, now: nat)
    requires Inv(s) && (s.List(Asleep) == [] || s.Of(s.List(Asleep)[0]).wakeTick > now)
    ensures WokeDue(s, s, now)
  {
    assert Holds(s, Asleep);
    forall t | t in s.place && s.place[t] == Asleep ensures s.Of(t).wakeTick > now {
      var k :| 0 <= k < |s.List(Asleep)| && s.List(Asleep)[k] == t;
    }
  }

  /** wait_queue_wake_one. */
  function WakeOne(s: State, w: nat): State { if s.List(Blocked(w)) == [] then s else Woken(s, Blocked(w), 0) }

  /** wait_queue_wake_all. */
  function WakeAll(s: State, w: nat): State
    decreases |s.List(Blocked(w))|
  {
    if s.List(Blocked(w)) == [] then s else WakeAll(Woken(s, Blocked(w), 0), w)
  }

  lemma {:induction false} WakeAllKeeps(s: State, w: nat)
    requires Inv(s)
    ensures Inv(WakeAll(s, w)) && WakeAll(s, w).List(Blocked(w)) == [] && SleepersKept(s, WakeAll(s, w))
    decreases |s.List(Blocked(w))|
  {
    hide Inv, Woken, SleepersKept;
    if s.List(Blocked(w)) != [] {
      WokenKeeps(s, Blocked(w), 0);
      var a := Woken(s, Blocked(w), 0);
      WokenSleepers(s, a, s.List(Blocked(w))[0], w);
      WakeAllKeeps(a, w);
      SleepersTwice(s, a, WakeAll(a, w));
    } else {
      SleepersSame(s);
    }
  }

  lemma SleepersSame(s: State)
    ensures SleepersKept(s, s)
  {
  }

  lemma WokenSleepers(s: State, a: State, t: Tid, w: nat)
    requires t in s.place && s.place[t] == Blocked(w) && a.place == s.place[t := Ready(s.Of(t).priority)]
    requires a.info == s.info
    ensures SleepersKept(s, a)
  {
  }

  lemma SleepersTwice(s: State, a: State, z: State)
    requires SleepersKept(s, a) && SleepersKept(a, z)
    ensures SleepersKept(s, z)
  {
  }

  /** Nobody is created or lost, and the sleepers sleep on. */
  ghost predicate SleepersKept(s: State, z: State) {
    && z.place.Keys == s.place.Keys
    && forall t :: t in s.place && s.place[t] == Asleep ==> z.place[t] == Asleep && z.Of(t).wakeTick == s.Of(t).wakeTick
  }

  // ----- the timer tick

  function SliceTick(s: State): State {
    var i := s.Of(s.current);
    if s.current != s.idle && i.slice > 0 then s.With(s.current, i.(slice := i.slice - 1)) else s
  }

  /** Changing what is not placement keeps the invariant. */
  lemma WithInv(s: State, t: Tid, i: Info)
    requires Inv(s) && t in s.place && i.priority == s.Of(t).priority && i.wakeTick == s.Of(t).wakeTick
    ensures Inv(s.With(t, i)) && s.With(t, i).place == s.place
  {
    CoreKeys(s);
    WithCore(s, t, i);
    hide Core;
  }

  /** The thread has waited long enough to be boosted; tick counts are 64 bits wide. */
  predicate Starved(i: Info, now: nat) { !i.boosted && (now - i.waitStart) % WORD >= AGING_THRESHOLD }

  /** Thread `n` of run queue `p` moves to the head of the UI queue. */
  function Boost(s: State, p: nat, n: nat, now: nat): (z: State)
    requires n < |s.List(Ready(p))| && p != UI
    ensures |z.List(Ready(p))| == |s.List(Ready(p))| - 1
  {
    var t := s.List(Ready(p))[n];
    var a := s.OutOf(Ready(p), n);
    a.With(t, a.Of(t).(priority := UI, boosted := true, waitStart := now)).Into(t, Ready(UI), 0)
  }

  /** The aging loop over run queue `p` from position `n`. */
  function Age(s: State, p: nat, n: nat, now: nat): State
    requires p != UI
    decreases |s.List(Ready(p))| - n
  {
    if n >= |s.List(Ready(p))| then s
    else if Starved(s.Of(s.List(Ready(p))[n]), now) then Age(Boost(s, p, n, now), p, n, now)
    else Age(s, p, n + 1, now)
  }

  function AgeFrom(s: State, p: nat, now: nat): State
    decreases UI - p
  {
    if p >= UI then s else AgeFrom(Age(s, p, 0, now), p + 1, now)
  }

  /** A thread is boosted from a lower run queue into the UI queue. */
  ghost predicate BoostedBy(s: State, z: State, t: Tid, now: nat) {
    && s.At(t).Ready? && s.At(t).p != UI && Starved(s.Of(t), now) && z.At(t) == Ready(UI)
    && z.Of(t) == s.Of(t).(priority := UI, boosted := true, waitStart := now)
  }

  /** Aging boosts starved threads of the lower run queues and changes no one else. */
  ghost predicate Aged(s: State, z: State, now: nat) {
    && z.place.Keys == s.place.Keys && z.current == s.current && z.idle == s.idle
    && forall t :: t in s.place ==>
         (z.place[t] == s.place[t] && z.Of(t) == s.Of(t)) || BoostedBy(s, z, t, now)
  }

  ghost predicate NoneStarved(s: State, p: nat, now: nat) {
    forall t :: t in s.place && s.place[t] == Ready(p) ==> !Starved(s.Of(t), now)
  }

  lemma BoostKeeps(s: State, p: nat, n: nat, now: nat)
    requires Inv(s) && n < |s.List(Ready(p))| && p != UI && Starved(s.Of(s.List(Ready(p))[n]), now)
    ensures Inv(Boost(s, p, n, now)) && Aged(s, Boost(s, p, n, now), now)
    ensures Boost(s, p, n, now).List(Ready(p)) == Delete(s.List(Ready(p)), n)
  {
    hide Core, Insert, Delete;
    CoreKeys(s);
    OutOfCore(s, Ready(p), n);
    var t := s.List(Ready(p))[n];
    var a := s.OutOf(Ready(p), n);
    var i := a.Of(t).(priority := UI, boosted := true, waitStart := now);
    WithCore(a, t, i);
    IntoCore(a.With(t, i), t, Ready(UI), 0);
  }

  ghost predicate FrontFed(s: State, p: nat, n: nat, now: nat) {
    n <= |s.List(Ready(p))| && forall k :: 0 <= k < n ==> !Starved(s.Of(s.List(Ready(p))[k]), now)
  }

  lemma FrontFedAged(s: State, z: State, p: nat, n: nat, now: nat)
    requires Inv(s) && Aged(s, z, now) && p != UI && FrontFed(s, p, n, now) && n < |s.List(Ready(p))|
    requires z.List(Ready(p)) == Delete(s.List(Ready(p)), n) && Inv(z)
    ensures FrontFed(z, p, n, now)
  {
    forall k | 0 <= k < n ensures !Starved(z.Of(z.List(Ready(p))[k]), now) {
      var t := s.List(Ready(p))[k];
      assert z.List(Ready(p))[k] == t && t in z.List(Ready(p)) && t in s.List(Ready(p));
      assert Holds(s, Ready(p)) && Holds(z, Ready(p));
    }
  }

  lemma AgedTwice(s: State, m: State, z: State, now: nat)
    requires Aged(s, m, now) && Aged(m, z, now)
    ensures Aged(s, z, now)
  {
  }

  lemma {:induction false} AgeKeeps(s: State, p: nat, n: nat, now: nat)
    requires Inv(s) && p != UI && FrontFed(s, p, n, now)
    ensures Inv(Age(s, p, n, now)) && Aged(s, Age(s, p, n, now), now) && NoneStarved(Age(s, p, n, now), p, now)
    decreases |s.List(Ready(p))| - n
  {
    hide Inv, Aged, Boost, FrontFed, NoneStarved, Starved;
    if n >= |s.List(Ready(p))| {
      AllFed(s, p, n, now);
      AgedSame(s, now);
    } else if Starved(s.Of(s.List(Ready(p))[n]), now) {
      var b := Boost(s, p, n, now);
      BoostKeeps(s, p, n, now);
      FrontFedAged(s, b, p, n, now);
      AgeKeeps(b, p, n, now);
      AgedTwice(s, b, Age(b, p, n, now), now);
    } else {
      OneMoreFed(s, p, n, now);
      AgeKeeps(s, p, n + 1, now);
    }
  }

  lemma AllFed(s: State, p: nat, n: nat, now: nat)
    requires Inv(s) && FrontFed(s, p, n, now) && n >= |s.List(Ready(p))|
    ensures NoneStarved(s, p, now)
  {
    assert Holds(s, Ready(p));
    forall t | t in s.place && s.place[t] == Ready(p) ensures !Starved(s.Of(t), now) {
      var k :| 0 <= k < |s.List(Ready(p))| && s.List(Ready(p))[k] == t;
    }
  }

  lemma AgedSame(s: State, now: nat)
    ensures Aged(s, s, now)
  {
  }

  lemma OneMoreFed(s: State, p: nat, n: nat, now: nat)
    requires FrontFed(s, p, n, now) && n < |s.List(Ready(p))| && !Starved(s.Of(s.List(Ready(p))[n]), now)
    ensures FrontFed(s, p, n + 1, now)
  {
  }

  lemma StaysFed(s: State, z: State, p: nat, now: nat)
    requires Aged(s, z, now) && NoneStarved(s, p, now) && p != UI
    ensures NoneStarved(z, p, now)
  {
  }

  /** The queues from `p` up to the UI queue end without starved threads; those below stay without. */
  lemma {:induction false} AgeFromKeeps(s: State, p: nat, now: nat)
    requires Inv(s) && forall q: nat :: q < p < UI ==> NoneStarved(s, q, now)
    ensures Inv(AgeFrom(s, p, now)) && Aged(s, AgeFrom(s, p, now), now)
    ensures p < UI ==> forall q: nat :: q < UI ==> NoneStarved(AgeFrom(s, p, now), q, now)
    decreases UI - p
  {
    hide Inv, Aged, NoneStarved, Age;
    if p < UI {
      var a := Age(s, p, 0, now);
      FrontFedNone(s, p, now);
      AgeKeeps(s, p, 0, now);
      forall q: nat | q < p ensures NoneStarved(a, q, now) {
        StaysFed(s, a, q, now);
      }
      AgeFromKeeps(a, p + 1, now);
      AgedTwice(s, a, AgeFrom(a, p + 1, now), now);
    } else {
      AgedSame(s, now);
    }
  }

  lemma FrontFedNone(s: State, p: nat, now: nat)
    ensures FrontFed(s, p, 0, now)
  {
  }

  /** scheduler_tick. */
  function Tick(s: State, now: nat): State { AgeFrom(SliceTick(WakeDue(s, now)), 0, now) }

  lemma SliceKeeps(s: State)
    requires Inv(s)
    ensures Inv(SliceTick(s)) && SliceTick(s).place == s.place && SliceTick(s).lists == s.lists
    ensures SliceTick(s).info.Keys == s.info.Keys && SliceTick(s).idle == s.idle && SliceTick(s).current == s.current
    ensures forall t :: t in s.place ==> SliceTick(s).Of(t) == s.Of(t).(slice := SliceTick(s).Of(t).slice)
  {
    CoreKeys(s);
    var i := s.Of(s.current);
    if i.slice > 0 {
      WithInv(s, s.current, i.(slice := i.slice - 1));
    }
    hide Core;
  }

  /** After a tick no thread below UI priority has been waiting for 100 ticks without a boost. */
  lemma TickKeeps(s: State, now: nat)
    requires Inv(s)
    ensures Inv(Tick(s, now)) && forall p: nat :: p < UI ==> NoneStarved(Tick(s, now), p, now)
  {
    hide Inv, NoneStarved, AgeFrom, WakeDue, WokeDue, SliceTick, Aged;
    WakeDueKeeps(s, now);
    SliceKeeps(WakeDue(s, now));
    AgeFromKeeps(SliceTick(WakeDue(s, now)), 0, now);
  }

  // ----- preemption

  /** The first kernel thread of `q`, or its length. */
  function FirstKernel(s: State, q: seq<Tid>): (n: nat)
    ensures n <= |q| && (n < |q| ==> s.Of(q[n]).kernel)
    ensures forall k :: 0 <= k < n ==> !s.Of(q[k]).kernel
  {
    if q == [] || s.Of(q[0]).kernel then 0 else 1 + FirstKernel(s, q[1..])
  }

  /** The highest run queue below `n` with a kernel thread, or -1. */
  function TopKernel(s: State, n: nat): (p: int)
    ensures -1 <= p < n && (p >= 0 ==> FirstKernel(s, s.List(Ready(p))) < |s.List(Ready(p))|)
    ensures forall k: nat :: p < k < n ==> FirstKernel(s, s.List(Ready(k))) == |s.List(Ready(k))|
  {
    if n == 0 then -1 else
    var q := s.List(Ready(n - 1));
    if FirstKernel(s, q) < |q| then n - 1 else TopKernel(s, n - 1)
  }

  /** The current thread may not be preempted yet. */
  predicate Shielded(s: State) {
    s.Of(s.current).preemptCount > 0 || (s.Of(s.current).slice > 0 && s.current != s.idle)
  }

  /** The end of scheduler_preempt, once the decision is to look for another thread. */
  function TakeOver(s: State, now: nat): State {
    var p := TopKernel(s, PRIORITIES);
    if p < 0 then
      if s.Of(s.current).slice == 0 then s.With(s.current, s.Of(s.current).(slice := DEFAULT_SLICE)) else s
    else
      var q := s.List(Ready(p));
      var n := FirstKernel(s, q);
      var z := Switch(s.OutOf(Ready(p), n), q[n], now);
      z.With(q[n], z.Of(q[n]).(slice := TimeSlice(z.Of(q[n]).priority)))
  }

  /** scheduler_preempt; `user` says whether the interrupt came from user mode. */
  function Preempt(s: State, now: nat, user: bool): State {
    if user then s else
    var a := SliceTick(WakeDue(s, now));
    if Shielded(a) then a else TakeOver(a, now)
  }

  lemma InvIsPoised(s: State)
    requires Inv(s)
    ensures Poised(s)
  {
  }

  /** Run queue `k` after a preemption of `c` by thread `n` of queue `p`: only these two moved. */
  ghost predicate QueueAfter(s: State, z: State, c: Tid, p: nat, n: nat, k: nat) {
    && n < |s.List(Ready(p))|
    && z.List(Ready(k)) == (if k == z.Of(c).priority then [c] else [])
                           + (if k == p then Delete(s.List(Ready(k)), n) else s.List(Ready(k)))
  }

  /** Preemption takes the first kernel thread of the highest run queue that has one. User threads
      stay queued in their order, and the old thread goes to the head of its own queue. */
  lemma TakeOverKeeps(s: State, now: nat)
    requires Inv(s)
    ensures var z, p := TakeOver(s, now), TopKernel(s, PRIORITIES);
      && Inv(z) && Scheduled(s, z)
      && (if p < 0 then z.current == s.current && z.lists == s.lists
          else var n := FirstKernel(s, s.List(Ready(p)));
               z.current == s.List(Ready(p))[n] && forall k: nat :: QueueAfter(s, z, s.current, p, n, k))
  {
    hide Core, Switch, Rested, Switched, Leaving, Poised, QueueAfter, Scheduled;
    CoreKeys(s);
    var p := TopKernel(s, PRIORITIES);
    if p < 0 {
      WithInv(s, s.current, s.Of(s.current).(slice := DEFAULT_SLICE));
      SameScheduled(s, TakeOver(s, now));
    } else {
      var n := FirstKernel(s, s.List(Ready(p)));
      InvIsPoised(s);
      TakeReady(s, p, n);
      OutOfCore(s, Ready(p), n);
      RestedCurrent(s);
      var next, a := s.List(Ready(p))[n], s.OutOf(Ready(p), n);
      var z := Switch(a, next, now);
      SwitchKeeps(a, next, now);
      ScheduledFrom(s, a, z, next);
      CoreKeys(z);
      SwitchedKeys(a, z, next);
      var y := z.With(next, z.Of(next).(slice := TimeSlice(z.Of(next).priority)));
      WithInv(z, next, z.Of(next).(slice := TimeSlice(z.Of(next).priority)));
      SliceScheduled(s, z, next, TimeSlice(z.Of(next).priority));
      forall k: nat ensures QueueAfter(s, y, s.current, p, n, k) {
        QueueAfterSwitch(s, a, z, next, p, n, k, TimeSlice(z.Of(next).priority));
      }
    }
  }

  lemma SameScheduled(s: State, z: State)
    requires z.place == s.place && z.idle == s.idle && forall t :: t in s.place ==> z.Of(t).wakeTick == s.Of(t).wakeTick
    ensures Scheduled(s, z)
  {
  }

  lemma SliceScheduled(s: State, z: State, t: Tid, slice: nat)
    requires Scheduled(s, z)
    ensures Scheduled(s, z.With(t, z.Of(t).(slice := slice)))
  {
  }

  lemma SwitchedKeys(a: State, z: State, next: Tid)
    requires Switched(a, z, next) && next in a.place
    ensures next in z.place
  {
  }

  lemma RestedCurrent(s: State)
    requires Inv(s)
    ensures s.place[s.current] == Running
  {
  }

  lemma QueueAfterSwitch(s: State, a: State, z: State, next: Tid, p: nat, n: nat, k: nat, slice: nat)
    requires n < |s.List(Ready(p))| && a == s.OutOf(Ready(p), n) && next == s.List(Ready(p))[n] && next != s.current
    requires a.At(a.current) == Running && Switched(a, z, next)
    ensures QueueAfter(s, z.With(next, z.Of(next).(slice := slice)), s.current, p, n, k)
  {
    hide Delete;
  }

  lemma PreemptKeeps(s: State, now: nat, user: bool)
    requires Inv(s)
    ensures Inv(Preempt(s, now, user))
  {
    hide Inv, WakeDue, WokeDue, SliceTick, TakeOver, Shielded, Scheduled, QueueAfter;
    WakeDueKeeps(s, now);
    SliceKeeps(WakeDue(s, now));
    TakeOverKeeps(SliceTick(WakeDue(s, now)), now);
  }

  // ----- runs

  datatype Event =
    Yield(now: nat) | Sleep(ticks: nat, now: nat) | Block(w: nat, now: nat) | WakeFirst(w: nat) | WakeEvery(w: nat) |
    TimerTick(now: nat) | Interrupt(now: nat, user: bool)

  /** The idle thread neither sleeps nor blocks. */
  predicate Enabled(s: State, e: Event) { e.Sleep? || e.Block? ==> s.current != s.idle }

  function WakeTick(ticks: nat, now: nat): nat { (now + ticks) % WORD }

  function Step(s: State, e: Event): State {
    match e
    case Yield(now) => Schedule(s, now)
    case Sleep(ticks, now) => if ticks == 0 then s else Schedule(ToSleep(s, WakeTick(ticks, now)), now)
    case Block(w, now) => Schedule(ToBlock(s, w), now)
    case WakeFirst(w) => WakeOne(s, w)
    case WakeEvery(w) => WakeAll(s, w)
    case TimerTick(now) => Tick(s, now)
    case Interrupt(now, user) => Preempt(s, now, user)
  }

  lemma StepKeeps(s: State, e: Event)
    requires Inv(s) && Enabled(s, e)
    ensures Inv(Step(s, e))
  {
    hide Inv, Poised, Schedule, WakeAll, Tick, Preempt, Woken;
    match e
    case Yield(now) => InvIsPoised(s); ScheduleKeeps(s, now);
    case Sleep(ticks, now) =>
      ToSleepPoised(s, WakeTick(ticks, now));
      ScheduleKeeps(ToSleep(s, WakeTick(ticks, now)), now);
    case Block(w, now) => ToBlockPoised(s, w); ScheduleKeeps(ToBlock(s, w), now);
    case WakeFirst(w) =>
      if s.List(Blocked(w)) != [] {
        WokenKeeps(s, Blocked(w), 0);
      }
    case WakeEvery(w) => WakeAllKeeps(s, w);
    case TimerTick(now) => TickKeeps(s, now);
    case Interrupt(now, user) => PreemptKeeps(s, now, user);
  }

  function After(s: State, es: seq<Event>): State {
    if es == [] then s else Step(After(s, es[..|es| - 1]), es[|es| - 1])
  }

  predicate Runs(s: State, es: seq<Event>) {
    es == [] || (Runs(s, es[..|es| - 1]) && Enabled(After(s, es[..|es| - 1]), es[|es| - 1]))
  }

  /** Over every run: each thread in exactly one place, each run queue with threads of its own
      priority, the sleep queue in wake order, one thread running. */
  lemma {:induction false} RunKeeps(s: State, es: seq<Event>)
    requires Inv(s) && Runs(s, es)
    ensures Inv(After(s, es))
  {
    if es != [] {
      hide Inv, Step, Enabled;
      RunKeeps(s, es[..|es| - 1]);
      StepKeeps(After(s, es[..|es| - 1]), es[|es| - 1]);
    }
  }

  /** The event looks at the clock and wakes sleepers. */
  predicate Wakes(e: Event) { e.TimerTick? || (e.Interrupt? && !e.user) }

  /** What an event does to the sleepers: those whose tick has come leave when the clock is looked at,
      and nobody else does. */
  ghost predicate SleepersTimed(s: State, z: State, e: Event) {
    && z.place.Keys == s.place.Keys
    && forall t :: t in s.place && s.place[t] == Asleep ==>
         && (if z.place[t] == Asleep then z.Of(t).wakeTick == s.Of(t).wakeTick
               else z.place[t].Ready? || z.place[t] == Running)
         && (z.place[t] == Asleep <==> !(Wakes(e) && s.Of(t).wakeTick <= e.now))
  }

  /** Sleepers after the wake-ups, with slices ticked. */
  lemma WokeTimed(s: State, a: State, b: State, now: nat, t: Tid)
    requires WokeDue(s, a, now) && b.place == a.place && t in s.place && s.place[t] == Asleep && t in a.place
    requires b.Of(t) == a.Of(t).(slice := b.Of(t).slice)
    ensures t in b.place && (b.place[t] == Asleep <==> s.Of(t).wakeTick > now) && b.Of(t).wakeTick == s.Of(t).wakeTick
    ensures b.place[t] == Asleep || b.place[t].Ready?
  {
  }

  lemma TickTimed(s: State, now: nat)
    requires Inv(s)
    ensures SleepersTimed(s, Tick(s, now), TimerTick(now))
  {
    hide Inv, AgeFrom, WakeDue, SliceTick, NoneStarved;
    var a := WakeDue(s, now);
    var b := SliceTick(a);
    var z := Tick(s, now);
    WakeDueKeeps(s, now);
    SliceKeeps(a);
    AgeFromKeeps(b, 0, now);
    forall t | t in s.place && s.place[t] == Asleep
      ensures t in z.place && (z.place[t] == Asleep <==> s.Of(t).wakeTick > now)
        && if z.place[t] == Asleep then z.Of(t).wakeTick == s.Of(t).wakeTick
              else z.place[t].Ready? || z.place[t] == Running
    {
      WokeTimed(s, a, b, now, t);
      AgedWake(b, z, t, now);
    }
  }

  lemma AgedWake(b: State, z: State, t: Tid, now: nat)
    requires Aged(b, z, now) && t in b.place
    ensures t in z.place && (z.place[t] == Asleep <==> b.place[t] == Asleep)
    ensures if b.place[t] == Asleep then z.Of(t) == b.Of(t) else b.place[t].Ready? ==> z.place[t].Ready?
  {
  }

  lemma PreemptTimed(s: State, now: nat, user: bool)
    requires Inv(s)
    ensures SleepersTimed(s, Preempt(s, now, user), Interrupt(now, user))
  {
    hide Inv, WakeDue, SliceTick, TakeOver, Shielded, QueueAfter;
    if !user {
      var a := WakeDue(s, now);
      var b := SliceTick(a);
      var z := Preempt(s, now, user);
      WakeDueKeeps(s, now);
      SliceKeeps(a);
      TakeOverKeeps(b, now);
      forall t | t in s.place && s.place[t] == Asleep
        ensures t in z.place && (z.place[t] == Asleep <==> s.Of(t).wakeTick > now)
        && if z.place[t] == Asleep then z.Of(t).wakeTick == s.Of(t).wakeTick
              else z.place[t].Ready? || z.place[t] == Running
      {
        WokeTimed(s, a, b, now, t);
      }
    }
  }

  lemma PlaceKeys(s: State)
    requires Inv(s)
    ensures s.info.Keys == s.place.Keys
  {
  }

  lemma ToSleepOthers(s: State, tick: nat)
    requires Inv(s) && s.current != s.idle
    ensures var z := ToSleep(s, tick); z.place == s.place[s.current := Asleep] && z.Of(s.current).wakeTick == tick
    ensures forall t :: t in s.place && t != s.current ==> ToSleep(s, tick).Of(t) == s.Of(t)
  {
  }

  lemma LeftTimed(s: State, a: State, z: State, l: Place, e: Event)
    requires s.current in s.place && s.place[s.current] == Running && a.place == s.place[s.current := l] && !Wakes(e)
    requires (forall t :: t in s.place && t != s.current ==> a.Of(t) == s.Of(t)) && Scheduled(a, z)
    ensures SleepersTimed(s, z, e)
  {
  }

  lemma StepTimed(s: State, e: Event)
    requires Inv(s) && Enabled(s, e)
    ensures SleepersTimed(s, Step(s, e), e)
  {
    hide Inv, Poised, Schedule, WakeAll, Tick, Preempt, Woken, ToSleep, ToBlock, Insert;
    PlaceKeys(s);
    RestedCurrent(s);
    match e {
      case Yield(now) => InvIsPoised(s); ScheduleKeeps(s, now);
      case Sleep(ticks, now) =>
        ToSleepPoised(s, WakeTick(ticks, now));
        ToSleepOthers(s, WakeTick(ticks, now));
        ScheduleKeeps(ToSleep(s, WakeTick(ticks, now)), now);
        CurrentPlaced(s);
        LeftTimed(s, ToSleep(s, WakeTick(ticks, now)), Schedule(ToSleep(s, WakeTick(ticks, now)), now), Asleep, e);
      case Block(w, now) =>
        ToBlockPoised(s, w);
        ToBlockInfo(s, w);
        ScheduleKeeps(ToBlock(s, w), now);
        CurrentPlaced(s);
        LeftTimed(s, ToBlock(s, w), Schedule(ToBlock(s, w), now), Blocked(w), e);
      case WakeFirst(w) =>
        if s.List(Blocked(w)) != [] {
          WokenKeeps(s, Blocked(w), 0);
        }
      case WakeEvery(w) => WakeAllKeeps(s, w);
      case TimerTick(now) => TickTimed(s, now);
      case Interrupt(now, user) => PreemptTimed(s, now, user);
    }
  }

  lemma ToBlockInfo(s: State, w: nat)
    ensures ToBlock(s, w).info == s.info
  {
  }

  /** The event does not process the time `tick` of a sleeper. */
  predicate Early(e: Event, tick: nat) { Wakes(e) ==> e.now < tick }

  /** Over every run nobody wakes early: until an event processes its tick, a sleeper stays asleep. */
  lemma {:induction false} NobodyWakesEarly(s: State, es: seq<Event>, t: Tid)
    requires Inv(s) && Runs(s, es) && t in s.place && s.place[t] == Asleep && forall e :: e in es ==>
      Early(e, s.Of(t).wakeTick)
    ensures var z := After(s, es); t in z.place && z.place[t] == Asleep && z.Of(t).wakeTick == s.Of(t).wakeTick
  {
    if es != [] {
      hide Inv, Step, Enabled;
      var n := |es| - 1;
      assert es[n] in es && forall e :: e in es[..n] ==> e in es;
      NobodyWakesEarly(s, es[..n], t);
      RunKeeps(s, es[..n]);
      StepTimed(After(s, es[..n]), es[n]);
    }
  }

  /** Nor late: the first event that processes its tick makes it ready, or even runs it. */
  lemma NobodyOversleeps(s: State, es: seq<Event>, e: Event, t: Tid)
    requires Inv(s) && Runs(s, es) && Enabled(After(s, es), e) && t in s.place && s.place[t] == Asleep
    requires (forall x :: x in es ==> Early(x, s.Of(t).wakeTick)) && Wakes(e) && s.Of(t).wakeTick <= e.now
    ensures var z := Step(After(s, es), e); t in z.place && (z.place[t].Ready? || z.place[t] == Running)
  {
    hide Inv, Step, Enabled, After, Runs;
    NobodyWakesEarly(s, es, t);
    RunKeeps(s, es);
    StepTimed(After(s, es), e);
  }

  /** thread_sleep_ticks puts the caller to sleep until now + ticks, exactly when that sum fits the
      64-bit tick counter. */
  lemma SleepsUntil(s: State, ticks: nat, now: nat)
    requires Inv(s) && s.current != s.idle && ticks > 0 && now < WORD
    ensures var z := Step(s, Sleep(ticks, now));
      && s.current in z.place && z.place[s.current] == Asleep && z.current != s.current
      && (z.Of(s.current).wakeTick == now + ticks <==> now + ticks < WORD)
  {
    hide Inv, Schedule, ToSleep, Poised, Core;
    var tick := WakeTick(ticks, now);
    CurrentPlaced(s);
    ToSleepPoised(s, tick);
    ToSleepOthers(s, tick);
    ScheduleKeeps(ToSleep(s, tick), now);
    NotCurrent(Schedule(ToSleep(s, tick), now), s.current);
  }

  /** A thread that goes to sleep for one tick at the last tick of the counter is woken by the next
      look at the clock, at that same tick. */
  lemma WakesAtOnce(s: State)
    requires Inv(s) && s.current != s.idle
    ensures var now := WORD - 1; var z := Step(s, Sleep(1, now)); var y := Step(z, TimerTick(now));
      && s.current in z.place && z.place[s.current] == Asleep && z.Of(s.current).wakeTick == 0
      && s.current in y.place && (y.place[s.current].Ready? || y.place[s.current] == Running)
  {
    hide Inv, Schedule, ToSleep, Poised, Core, Tick;
    var now := WORD - 1;
    CurrentPlaced(s);
    ToSleepPoised(s, 0);
    ToSleepOthers(s, 0);
    ScheduleKeeps(ToSleep(s, 0), now);
    var z := Schedule(ToSleep(s, 0), now);
    TickTimed(z, now);
    TickKeeps(z, now);
  }

  lemma CurrentPlaced(s: State)
    requires Inv(s)
    ensures s.current in s.place
  {
  }

  lemma NotCurrent(z: State, t: Tid)
    requires Inv(z) && t in z.place && z.place[t] != Running
    ensures z.current != t
  {
  }

  /** The partition, spelled out: over every run the threads stay the same, and each of them is
      running, or in exactly one list and there once, or is the parked idle thread. */
  lemma {:induction false} Partition(s: State, es: seq<Event>, t: Tid)
    requires Inv(s) && Runs(s, es) && t in s.place
    ensures var z := After(s, es);
      && t in z.place && (z.place[t] == Running <==> t == z.current) && z.place[t] != Moving
      && (z.place[t] == Parked ==> t == z.idle)
      && (forall l: Place :: l.Listed() ==> Distinct(z.List(l)) && (t in z.List(l) <==> z.place[t] == l))
      && (z.place[t].Ready? ==> z.place[t].p == z.Of(t).priority < PRIORITIES)
  {
    KeysKept(s, es);
    RunKeeps(s, es);
    var z := After(s, es);
    forall l: Place | l.Listed() ensures Distinct(z.List(l)) && (t in z.List(l) <==> z.place[t] == l) {
      assert Holds(z, l);
    }
    hide After, Runs, Step;
  }

  lemma {:induction false} KeysKept(s: State, es: seq<Event>)
    requires Inv(s) && Runs(s, es)
    ensures After(s, es).place.Keys == s.place.Keys
  {
    if es != [] {
      hide Inv, Step, Enabled;
      KeysKept(s, es[..|es| - 1]);
      RunKeeps(s, es[..|es| - 1]);
      StepTimed(After(s, es[..|es| - 1]), es[|es| - 1]);
    }
  }
}
