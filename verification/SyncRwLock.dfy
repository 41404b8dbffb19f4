/** The read-write lock with both preferences, one critical section per step. */
module SyncRwLock {
  import opened Basics
  import opened SyncBase
  import Arith

  datatype Preference = PreferReader | PreferWriter

  /** writer_wait_count is unsigned and 32 bits wide, reader_count signed. */
  const WORD := 0x1_0000_0000

  /** `count` is reader_count and `waiting` is writer_wait_count; `readers` records who holds the
      lock for reading, once per hold. */
  datatype State = State(pref: Preference, count: int, writer: Option<Tid>, waiting: int,
                         reading: Line, writing: Line, readers: multiset<Tid>)
  {
    predicate Free() { writer == None && count == 0 }

    predicate ReadBlocked() { writer != None || (pref == PreferWriter && waiting > 0) }

    predicate WriteBlocked() { writer != None || count > 0 }

    function ReadTaken(t: Tid): State {
      this.(count := Arith.Int32(count + 1), readers := readers + multiset{t}, reading := reading.Leave(t))
    }

    function ReadDropped(t: Tid): State { this.(count := Arith.Int32(count - 1), readers := readers - multiset{t}) }

    /** A first attempt announces itself; a woken writer already has. */
    function Announced(t: Tid): State { if t in writing.pending then this else this.(waiting := (waiting + 1) % WORD) }

    /** The wake-ups of rwlock_wrunlock. */
    function Handed(): State {
      if pref == PreferWriter && writing.queue != [] then this.(writing := writing.WakeOne())
      else this.(reading := reading.WakeAll(), writing := if count == 0 then writing.WakeOne() else writing)
    }
  }

  datatype Event =
    RdLock(t: Tid) | TryRdLock(t: Tid) | WrLock(t: Tid) | TryWrLock(t: Tid) |
    RdUnlock(t: Tid) | WrUnlock(t: Tid) | Upgrade(t: Tid) | Downgrade(t: Tid)

  function Start(pref: Preference): State { State(pref, 0, None, 0, NOBODY, NOBODY, multiset{}) }

  /** Sleeping threads do nothing, woken ones are inside their lock call, and rwlock_rdunlock and
      rwlock_upgrade are for readers. */
  predicate Enabled(s: State, e: Event) {
    match e
    case RdLock(t) => t !in s.reading.queue && !s.writing.Inside(t)
    case WrLock(t) => t !in s.writing.queue && !s.reading.Inside(t)
    case RdUnlock(t) => !s.reading.Inside(t) && !s.writing.Inside(t) && t in s.readers
    case Upgrade(t) => !s.reading.Inside(t) && !s.writing.Inside(t) && t in s.readers
    case _ => !s.reading.Inside(e.t) && !s.writing.Inside(e.t)
  }

  function Step(s: State, e: Event): State {
    match e
    case RdLock(t) => if s.ReadBlocked() then s.(reading := s.reading.Sleep(t)) else s.ReadTaken(t)
    case TryRdLock(t) => if s.writer == None && (s.pref == PreferReader || s.waiting == 0) then s.ReadTaken(t) else s
    case WrLock(t) =>
      var a := s.Announced(t);
      if s.WriteBlocked() then a.(writing := a.writing.Sleep(t))
      else a.(waiting := (a.waiting - 1) % WORD, writer := Some(t), writing := a.writing.Leave(t))
    case TryWrLock(t) => if s.Free() then s.(writer := Some(t)) else s
    case RdUnlock(t) =>
      var a := s.ReadDropped(t);
      if a.count == 0 then a.(writing := a.writing.WakeOne()) else a
    case WrUnlock(t) => if s.writer != Some(t) then s else s.(writer := None).Handed()
    case Upgrade(t) => if s.count == 1 && s.writer == None then s.ReadDropped(t).(writer := Some(t)) else s
    case Downgrade(t) =>
      if s.writer != Some(t) then s
      else s.(writer := None, count := Arith.Int32(s.count + 1), readers := s.readers + multiset{t},
              reading := s.reading.WakeAll())
  }

  function After(s: State, es: seq<Event>): State {
    if es == [] then s else Step(After(s, es[..|es| - 1]), es[|es| - 1])
  }

  predicate Runs(s: State, es: seq<Event>) {
    es == [] || (Runs(s, es[..|es| - 1]) && Enabled(After(s, es[..|es| - 1]), es[|es| - 1]))
  }

  ghost predicate Inv(s: State) {
    && s.reading.Ordered() && s.writing.Ordered()
    && s.count == |s.readers| < 0x8000_0000 && (s.writer != None ==> s.count == 0)
    && s.waiting == |s.writing.queue| + |s.writing.pending| < WORD
    && (s.Free() && s.writing.queue != [] ==> s.writing.pending != {})
    && (s.writer == None && s.reading.queue != [] ==> s.pref == PreferWriter && s.waiting > 0)
  }

  /** One hold or one waiting writer too many for its counter. */
  predicate Overflows(s: State, e: Event) {
    match e
    case RdLock(_) => !s.ReadBlocked() && s.count == 0x7FFF_FFFF
    case TryRdLock(_) => s.writer == None && (s.pref == PreferReader || s.waiting == 0) && s.count == 0x7FFF_FFFF
    case WrLock(t) => s.WriteBlocked() && t !in s.writing.pending && s.waiting == 0xFFFF_FFFF
    case _ => false
  }

  lemma ReadKeeps(s: State, e: Event)
    requires Inv(s) && Enabled(s, e) && (e.RdLock? || e.TryRdLock?)
    ensures Inv(Step(s, e)) <==> !Overflows(s, e)
  {
    s.reading.SleepOrdered(e.t);
    s.reading.LeaveOrdered(e.t);
    hide Line.Ordered;
  }

  lemma WriteKeeps(s: State, e: Event)
    requires Inv(s) && Enabled(s, e) && (e.WrLock? || e.TryWrLock?)
    ensures Inv(Step(s, e)) <==> !Overflows(s, e)
  {
    hide Line.Ordered;
    s.writing.SleepOrdered(e.t);
    s.writing.LeaveOrdered(e.t);
    if e.t in s.writing.pending {
      assert |s.writing.pending - {e.t}| == |s.writing.pending| - 1;
    } else {
      assert s.writing.pending - {e.t} == s.writing.pending;
    }
  }

  lemma ReadDoneKeeps(s: State, e: Event)
    requires Inv(s) && Enabled(s, e) && (e.RdUnlock? || e.Upgrade?)
    ensures Inv(Step(s, e))
  {
    s.writing.WakeOneOrdered();
    assert |s.readers - multiset{e.t}| == |s.readers| - 1;
    hide Line.Ordered;
  }

  lemma WriteDoneKeeps(s: State, e: Event)
    requires Inv(s) && Enabled(s, e) && (e.WrUnlock? || e.Downgrade?)
    ensures Inv(Step(s, e))
  {
    s.writing.WakeOneOrdered();
    s.reading.WakeAllOrdered();
    hide Line.Ordered, Line.WakeAll;
  }

  /** A step keeps the invariant exactly when no counter overflows. */
  lemma StepKeepsIff(s: State, e: Event)
    requires Inv(s) && Enabled(s, e)
    ensures (Inv(Step(s, e)) <==> !Overflows(s, e)) && Step(s, e).pref == s.pref
  {
    hide Inv, Enabled;
    if e.RdLock? || e.TryRdLock? { ReadKeeps(s, e); }
    else if e.WrLock? || e.TryWrLock? { WriteKeeps(s, e); }
    else if e.RdUnlock? || e.Upgrade? { ReadDoneKeeps(s, e); }
    else { WriteDoneKeeps(s, e); }
  }

  /** No event of the run overflows a counter. */
  predicate Roomy(s: State, es: seq<Event>) {
    es == [] || (Roomy(s, es[..|es| - 1]) && !Overflows(After(s, es[..|es| - 1]), es[|es| - 1]))
  }

  lemma {:induction false} RunKeeps(pref: Preference, es: seq<Event>)
    requires Runs(Start(pref), es) && Roomy(Start(pref), es)
    ensures Inv(After(Start(pref), es)) && After(Start(pref), es).pref == pref
  {
    if es == [] {
      assert Inv(Start(pref));
    } else {
      hide Step, Inv, Enabled, Overflows;
      RunKeeps(pref, es[..|es| - 1]);
      StepKeepsIff(After(Start(pref), es[..|es| - 1]), es[|es| - 1]);
    }
  }

  lemma StepGrows(s: State, e: Event)
    requires Inv(s) && Enabled(s, e) && !Overflows(s, e)
    ensures Step(s, e).count <= s.count + 1 && Step(s, e).waiting <= s.waiting + 1
  {
    hide Line.WakeAll, Line.WakeOne, Line.Ordered;
  }

  /** An overflow takes more than 2^31 - 1 calls. */
  lemma {:induction false} ShortRunsFit(pref: Preference, es: seq<Event>)
    requires Runs(Start(pref), es) && |es| < 0x8000_0000
    ensures Roomy(Start(pref), es) && After(Start(pref), es).count <= |es| && After(Start(pref), es).waiting <= |es|
  {
    if es != [] {
      hide Step, Inv, Enabled, State.ReadBlocked, State.WriteBlocked;
      var n := |es| - 1;
      ShortRunsFit(pref, es[..n]);
      RunKeeps(pref, es[..n]);
      StepGrows(After(Start(pref), es[..n]), es[n]);
    }
  }

  /** Exclusion, in every run: a writer never shares the lock with a reader. */
  lemma NeverBoth(pref: Preference, es: seq<Event>)
    requires Runs(Start(pref), es) && Roomy(Start(pref), es)
    ensures var s := After(Start(pref), es); s.writer == None || s.readers == multiset{}
  {
    hide Step, Enabled, After, Runs, Roomy;
    RunKeeps(pref, es);
  }

  /** No lost wakeup, in every run and for both preferences: when the lock is free and anyone sleeps,
      a woken writer is on its way. */
  lemma SomeoneComes(pref: Preference, es: seq<Event>)
    requires Runs(Start(pref), es) && Roomy(Start(pref), es)
    ensures var s := After(Start(pref), es);
      s.Free() && (s.reading.queue != [] || s.writing.queue != []) ==> s.writing.pending != {}
  {
    hide Step, Enabled, After, Runs, Roomy;
    RunKeeps(pref, es);
  }

  /** When a reader gets in: no writer holds the lock and, if writers are preferred, none waits either.
      Otherwise rwlock_rdlock queues it and rwlock_tryrdlock leaves everything alone. */
  lemma ReadOutcome(s: State, e: Event)
    requires Inv(s) && Enabled(s, e) && (e.RdLock? || e.TryRdLock?)
    ensures var z := Step(s, e);
      if s.writer == None && (s.pref == PreferReader || (s.writing.queue == [] && s.writing.pending == {})) then
        && z.readers == s.readers + multiset{e.t} && z.writer == None && z.reading.queue == s.reading.queue
        && (s.count < 0x7FFF_FFFF ==> z.count == s.count + 1) && z.writing == s.writing
      else
        z == if e.RdLock? then s.(reading := s.reading.Sleep(e.t)) else s
  {
    hide Line.Ordered;
    assert s.waiting == 0 <==> s.writing.queue == [] && s.writing.pending == {};
  }

  /** When a writer gets in: the lock is free. Otherwise rwlock_wrlock queues it. */
  lemma WriteOutcome(s: State, e: Event)
    requires Inv(s) && Enabled(s, e) && !Overflows(s, e) && (e.WrLock? || e.TryWrLock?)
    ensures var z := Step(s, e);
      && z.readers == s.readers && z.count == s.count && z.reading == s.reading
      && if s.writer == None && s.readers == multiset{} then
           && z.writer == Some(e.t) && z.writing.queue == s.writing.queue
           && z.waiting == s.waiting - (if e.t in s.writing.pending then 1 else 0)
         else if e.TryWrLock? then z == s
         else
           && z.writer == s.writer && z.writing == s.writing.Sleep(e.t)
           && z.waiting == s.waiting + (if e.t in s.writing.pending then 0 else 1)
  {
    hide Line.Ordered;
    if e.t in s.writing.pending {
      assert |s.writing.pending| > 0;
    }
  }

  /** A reader that leaves takes one hold of its own with it; the last one wakes the longest waiting writer. */
  lemma ReadersLeave(s: State, t: Tid)
    requires Inv(s) && Enabled(s, RdUnlock(t))
    ensures var z := Step(s, RdUnlock(t));
      && z.readers == s.readers - multiset{t} && z.count == s.count - 1 && z.writer == None && z.reading == s.reading
      && if s.readers == multiset{t} && s.writing.queue != [] then
           s.writing.queue == [s.writing.queue[0]] + z.writing.queue && s.writing.queue[0] in z.writing.pending
         else z.writing == s.writing
  {
    SoleReader(s, t);
    assert |s.readers| >= 1;
    hide Line.Ordered;
  }

  /** A write unlock by the holder releases the lock. If writers are preferred and one waits, the longest
      waiting writer is woken and the readers sleep on; otherwise every reader is woken, and the longest
      waiting writer too. By anyone else it changes nothing. */
  lemma WriterLeaves(s: State, t: Tid)
    requires Inv(s) && Enabled(s, WrUnlock(t))
    ensures var z := Step(s, WrUnlock(t));
      if s.writer == Some(t) then
        && z.writer == None && z.readers == multiset{} && z.count == 0 && z.waiting == s.waiting
        && (s.writing.queue == [] ==> z.writing == s.writing)
        && (s.writing.queue != [] ==>
              s.writing.queue == [s.writing.queue[0]] + z.writing.queue && s.writing.queue[0] in z.writing.pending)
        && if s.pref == PreferWriter && s.writing.queue != [] then z.reading == s.reading
           else z.reading.queue == [] && forall u :: u in z.reading.pending <==> s.reading.Inside(u)
      else z == s
  {
    s.reading.WakeAllOrdered();
    hide Line.Ordered, Line.WakeAll;
    assert s.writer == Some(t) ==> s.readers == multiset{};
  }

  /** A downgrade by the holder turns its hold into a read hold and wakes every reader, but no writer. */
  lemma WriterStepsDown(s: State, t: Tid)
    requires Inv(s) && Enabled(s, Downgrade(t))
    ensures var z := Step(s, Downgrade(t));
      if s.writer == Some(t) then
        && z.writer == None && z.readers == multiset{t} && z.count == 1 && z.writing == s.writing
        && z.reading.queue == [] && forall u :: u in z.reading.pending <==> s.reading.Inside(u)
      else z == s
  {
    s.reading.WakeAllOrdered();
    hide Line.Ordered, Line.WakeAll;
    assert s.writer == Some(t) ==> s.readers == multiset{};
  }

  lemma FreeIff(s: State)
    requires Inv(s)
    ensures s.Free() <==> s.writer == None && s.readers == multiset{}
    ensures s.WriteBlocked() <==> !s.Free()
  {
  }

  /** An upgrade succeeds exactly for the only hold, and gives a write hold for it. */
  lemma UpgradeOutcome(s: State, t: Tid)
    requires Inv(s) && Enabled(s, Upgrade(t))
    ensures Step(s, Upgrade(t)) ==
      if s.readers == multiset{t} then s.(writer := Some(t), count := 0, readers := multiset{}) else s
  {
    SoleReader(s, t);
    hide Line.Ordered;
    assert multiset{t} - multiset{t} == multiset{};
  }

  /** With reader preference readers sleep only under a writer. */
  lemma ReadersSleepUnderWriters(es: seq<Event>)
    requires Runs(Start(PreferReader), es) && Roomy(Start(PreferReader), es)
    ensures var s := After(Start(PreferReader), es); s.reading.queue != [] ==> s.writer != None
  {
    hide Step, Enabled, After, Runs, Roomy;
    RunKeeps(PreferReader, es);
  }

  /** A downgrade never lets another writer in between: the lock passes from write to read in one step. */
  lemma DowngradeKeepsHold(s: State, t: Tid)
    requires Inv(s) && Enabled(s, Downgrade(t)) && s.writer == Some(t)
    ensures var d := Step(s, Downgrade(t)); d.readers == multiset{t} && d.WriteBlocked() && d.reading.queue == []
    ensures Enabled(Step(s, Downgrade(t)), Upgrade(t)) && Step(Step(s, Downgrade(t)), Upgrade(t)).writer == Some(t)
  {
    s.reading.WakeAllOrdered();
    hide Line.Ordered, Line.WakeAll;
    assert s.readers == multiset{};
  }

  /** rwlock_rdunlock trusts its caller, and must: the state stays consistent exactly for a reader. */
  lemma RdUnlockIff(s: State, t: Tid)
    requires Inv(s) && !s.reading.Inside(t) && !s.writing.Inside(t)
    ensures Inv(Step(s, RdUnlock(t))) <==> t in s.readers
  {
    hide Inv, Step;
    if t in s.readers {
      ReadDoneKeeps(s, RdUnlock(t));
    } else {
      ForeignUnlock(s, t);
    }
  }

  lemma ForeignUnlock(s: State, t: Tid)
    requires Inv(s) && t !in s.readers
    ensures !Inv(Step(s, RdUnlock(t)))
  {
    assert s.readers - multiset{t} == s.readers;
    hide Line.Ordered;
  }

  /** rwlock_upgrade checks that there is one reader, not that it is the caller. */
  lemma UpgradeIff(s: State, t: Tid)
    requires Inv(s) && !s.reading.Inside(t) && !s.writing.Inside(t)
    ensures Inv(Step(s, Upgrade(t))) <==> t in s.readers || s.count != 1
  {
    if t in s.readers {
      ReadDoneKeeps(s, Upgrade(t));
    } else if s.count == 1 {
      assert s.readers - multiset{t} == s.readers;
    }
    hide Line.Ordered;
  }

  /** The lock held for reading 2^31 - 1 times and once more: the count is negative. */
  lemma ReadersOverflow()
    ensures var s := Start(PreferReader).(count := 0x7FFF_FFFF, readers := multiset{}[1 := 0x7FFF_FFFF]);
      && Inv(s) && Enabled(s, RdLock(2)) && Step(s, RdLock(2)).count == -0x8000_0000 && !Inv(Step(s, RdLock(2)))
  {
  }

  /** Thread 1 reads, thread 2 unlocks without having read, and thread 3 writes while thread 1 reads. */
  lemma ForeignUnlockLetsWriterIn()
    ensures var s := Step(Start(PreferReader), RdLock(1)); var z := Step(Step(s, RdUnlock(2)), WrLock(3));
      Inv(s) && 2 !in s.readers && z.writer == Some(3) && 1 in z.readers
  {
    assert multiset{1} - multiset{2} == multiset{1};
  }

  /** Thread 1 reads and thread 2, which does not, upgrades: it writes while thread 1 reads. */
  lemma ForeignUpgrade()
    ensures var s := Step(Start(PreferReader), RdLock(1)); var z := Step(s, Upgrade(2));
      Inv(s) && 2 !in s.readers && z.writer == Some(2) && 1 in z.readers
  {
    assert multiset{1} - multiset{2} == multiset{1};
  }

  class RwLock {
    const pref: Preference
    var readerCount: int
    var writer: Option<Tid>
    var writerWaitCount: int
    var readerQueue: seq<Tid>
    var writerQueue: seq<Tid>
    /** Who holds the lock for reading, and the history of the two queues. */
    ghost var readers: multiset<Tid>
    ghost var reading: Line
    ghost var writing: Line

    ghost function Now(): State
      reads this
    {
      State(pref, readerCount, writer, writerWaitCount, reading.(queue := readerQueue),
          writing.(queue := writerQueue), readers)
    }

    constructor (pref: Preference)
      ensures Now() == Start(pref) && Inv(Now())
    {
      this.pref, readerCount, writer, writerWaitCount, readerQueue, writerQueue := pref, 0, None, 0, [], [];
      readers, reading, writing := multiset{}, NOBODY, NOBODY;
    }

    method RdLock(t: Tid) returns (taken: bool)
      requires Inv(Now()) && Enabled(Now(), Event.RdLock(t))
      modifies this
      ensures (Inv(Now()) <==> !Overflows(old(Now()), Event.RdLock(t))) && Now() == Step(old(Now()), Event.RdLock(t))
      ensures taken <==> t !in readerQueue
      ensures taken <==>
        old(writer) == None && (pref == PreferReader || (old(writerQueue) == [] && old(writing.pending) == {}))
      ensures readers == old(readers) + (if taken then multiset{t} else multiset{}) && writer == old(writer)
      ensures readerQueue == old(readerQueue) + (if taken then [] else [t])
      ensures writerQueue == old(writerQueue)
    {
      ghost var s := Now();
      StepKeepsIff(s, Event.RdLock(t));
      ReadOutcome(s, Event.RdLock(t));
      hide Inv;
      if writer != None || (pref == PreferWriter && writerWaitCount > 0) {
        readerQueue, reading := readerQueue + [t], s.reading.Sleep(t);
        return false;
      }
      readerCount, readers, reading := Arith.Int32(readerCount + 1), readers + multiset{t}, s.reading.Leave(t);
      return true;
    }

    method TryRdLock(t: Tid) returns (taken: bool)
      requires Inv(Now()) && Enabled(Now(), Event.TryRdLock(t))
      modifies this
      ensures Inv(Now()) <==> !Overflows(old(Now()), Event.TryRdLock(t))
      ensures Now() == Step(old(Now()), Event.TryRdLock(t))
      ensures readers == old(readers) + (if taken then multiset{t} else multiset{})
      ensures taken <==>
        old(writer) == None && (pref == PreferReader || (old(writerQueue) == [] && old(writing.pending) == {}))
      ensures !taken ==> Now() == old(Now())
    {
      ghost var s := Now();
      StepKeepsIff(s, Event.TryRdLock(t));
      ReadOutcome(s, Event.TryRdLock(t));
      hide Inv;
      if writer == None && (pref == PreferReader || writerWaitCount == 0) {
        readerCount, readers, reading := Arith.Int32(readerCount + 1), readers + multiset{t}, s.reading.Leave(t);
        return true;
      }
      return false;
    }

    method WrLock(t: Tid, retry: bool) returns (taken: bool)
      requires Inv(Now()) && Enabled(Now(), Event.WrLock(t)) && retry == (t in writing.pending)
      modifies this
      ensures (Inv(Now()) <==> !Overflows(old(Now()), Event.WrLock(t))) && Now() == Step(old(Now()), Event.WrLock(t))
      ensures taken <==> t !in writerQueue
      ensures taken <==> old(writer) == None && old(readers) == multiset{}
      ensures writer == (if taken then Some(t) else old(writer)) && readers == old(readers)
      ensures writerQueue == old(writerQueue) + (if taken then [] else [t])
      ensures readerQueue == old(readerQueue)
    {
      hide Inv, Overflows;
      ghost var s := Now();
      StepKeepsIff(s, Event.WrLock(t));
      FreeIff(s);
      if !retry {
        writerWaitCount := (writerWaitCount + 1) % WORD;
      }
      if writer != None || readerCount > 0 {
        writerQueue, writing := writerQueue + [t], s.writing.Sleep(t);
        return false;
      }
      writerWaitCount, writer, writing := (writerWaitCount - 1) % WORD, Some(t), s.writing.Leave(t);
      return true;
    }

    method TryWrLock(t: Tid) returns (taken: bool)
      requires Inv(Now()) && Enabled(Now(), Event.TryWrLock(t))
      modifies this
      ensures Inv(Now()) && Now() == Step(old(Now()), Event.TryWrLock(t)) && taken == old(Now()).Free()
      ensures taken <==> old(writer) == None && old(readers) == multiset{}
      ensures Now() == if taken then old(Now()).(writer := Some(t)) else old(Now())
    {
      StepKeepsIff(Now(), Event.TryWrLock(t));
      FreeIff(Now());
      hide Inv;
      if writer == None && readerCount == 0 {
        writer := Some(t);
        return true;
      }
      return false;
    }

    method WakeWriter()
      modifies this`writerQueue, this`writing
      ensures Now() == old(Now()).(writing := old(Now()).writing.WakeOne())
    {
      ghost var s := Now();
      if writerQueue != [] {
        writerQueue, writing := writerQueue[1..], s.writing.WakeOne();
      }
    }

    method WakeReaders()
      modifies this`readerQueue, this`reading
      ensures Now() == old(Now()).(reading := old(Now()).reading.WakeAll())
    {
      ghost var s := Now();
      while readerQueue != []
        invariant Now() == s.(reading := Now().reading) && Now().reading.WakeAll() == s.reading.WakeAll()
        decreases |readerQueue|
      {
        ghost var r := Now().reading;
        readerQueue, reading := readerQueue[1..], r.WakeOne();
      }
    }

    method RdUnlock(t: Tid)
      requires Inv(Now()) && Enabled(Now(), Event.RdUnlock(t))
      modifies this
      ensures Inv(Now()) && Now() == Step(old(Now()), Event.RdUnlock(t))
      ensures readers == old(readers) - multiset{t} && readerCount == old(readerCount) - 1 && writer == None
      ensures readerQueue == old(readerQueue)
      ensures old(readers) == multiset{t} && old(writerQueue) != [] ==>
        old(writerQueue) == [old(writerQueue)[0]] + writerQueue && old(writerQueue)[0] in writing.pending
      ensures old(readers) != multiset{t} ==> writerQueue == old(writerQueue)
    {
      ReadersLeave(Now(), t);
      StepKeepsIff(Now(), Event.RdUnlock(t));
      hide Inv;
      readerCount, readers := Arith.Int32(readerCount - 1), readers - multiset{t};
      if readerCount == 0 && writerQueue != [] {
        WakeWriter();
      }
    }

    method WrUnlock(t: Tid)
      requires Inv(Now()) && Enabled(Now(), Event.WrUnlock(t))
      modifies this
      ensures Inv(Now()) && Now() == Step(old(Now()), Event.WrUnlock(t))
      ensures old(writer) != Some(t) ==> Now() == old(Now())
      ensures old(writer) == Some(t) ==> writer == None && readers == multiset{}
      ensures old(writer) == Some(t) && old(writerQueue) != [] ==>
        old(writerQueue) == [old(writerQueue)[0]] + writerQueue && old(writerQueue)[0] in writing.pending
      ensures old(writer) == Some(t) && pref == PreferWriter && old(writerQueue) != [] ==>
        readerQueue == old(readerQueue)
      ensures old(writer) == Some(t) && !(pref == PreferWriter && old(writerQueue) != []) ==>
        readerQueue == [] && forall u :: u in old(readerQueue) ==> u in reading.pending
    {
      WriterLeaves(Now(), t);
      StepKeepsIff(Now(), Event.WrUnlock(t));
      hide Inv;
      if writer != Some(t) {
        return;
      }
      writer := None;
      if pref == PreferWriter && writerQueue != [] {
        WakeWriter();
      } else {
        WakeReaders();
        if readerCount == 0 && writerQueue != [] {
          WakeWriter();
        }
      }
    }

    method Upgrade(t: Tid) returns (r: bool)
      requires Inv(Now()) && Enabled(Now(), Event.Upgrade(t))
      modifies this
      ensures Inv(Now()) && Now() == Step(old(Now()), Event.Upgrade(t)) && r == (old(readers) == multiset{t})
      ensures Now() == if r then old(Now()).(writer := Some(t), count := 0, readers := multiset{}) else old(Now())
    {
      UpgradeOutcome(Now(), t);
      StepKeepsIff(Now(), Event.Upgrade(t));
      SoleReader(Now(), t);
      hide Inv;
      if readerCount == 0 {
        return false;
      }
      if readerCount == 1 && writer == None {
        readerCount, readers, writer := Arith.Int32(readerCount - 1), readers - multiset{t}, Some(t);
        return true;
      }
      return false;
    }

    method Downgrade(t: Tid)
      requires Inv(Now()) && Enabled(Now(), Event.Downgrade(t))
      modifies this
      ensures Inv(Now()) && Now() == Step(old(Now()), Event.Downgrade(t))
      ensures old(writer) != Some(t) ==> Now() == old(Now())
      ensures old(writer) == Some(t) ==>
        && writer == None && readers == multiset{t} && readerQueue == [] && writerQueue == old(writerQueue)
        && forall u :: u in old(readerQueue) ==> u in reading.pending
    {
      WriterStepsDown(Now(), t);
      StepKeepsIff(Now(), Event.Downgrade(t));
      hide Inv;
      if writer != Some(t) {
        return;
      }
      writer, readerCount, readers := None, Arith.Int32(readerCount + 1), readers + multiset{t};
      WakeReaders();
    }
  }

  lemma SoleReader(s: State, t: Tid)
    requires Inv(s) && t in s.readers
    ensures (s.count == 1 && s.writer == None) <==> s.readers == multiset{t}
    ensures s.count != 0
  {
    assert s.readers == (s.readers - multiset{t}) + multiset{t};
    hide Line.Ordered;
  }
}
