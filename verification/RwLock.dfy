/**
 The readers-writer lock of argobots/src/rwlock.c: a reader count and a write flag guarded by a
 mutex, with one condition variable.  Taking the mutex, the code between, cond_wait (release and
 sleep at once) and broadcast are single steps; a woken thread has to take the mutex again.
 There are no spurious wake-ups (argobots/src/cond.c, lines 158-160).
*/
module RwLock {
  import opened Counting
  import opened Prelude

  datatype Mode = Shared | Exclusive

  datatype Pc =
    | Idle
    | Locking(mode: Mode)      // before mutex_lock, on entry or after being woken
    | Testing(mode: Mode)      // has the mutex, at the head of the while loop
    | Asleep(mode: Mode)       // in cond_wait
    | Holding(mode: Mode)      // rdlock or wrlock has returned
    | Unlocking(mode: Mode)    // in unlock, before mutex_lock
    | Releasing(mode: Mode)    // in unlock, has the mutex
    | Waking                   // in unlock, count or flag updated, about to broadcast

  datatype Lock = Lock(mutex: Option<nat>, readers: int, writeFlag: bool, threads: seq<Pc>)

  datatype Event =
    | Call(i: nat, mode: Mode)     // rdlock or wrlock is called
    | Take(i: nat)                 // mutex acquired by a locker
    | Test(i: nat)                 // loop test: sleep, or take the lock and drop the mutex
    | Return(i: nat)               // unlock is called by a holder
    | TakeBack(i: nat)             // mutex acquired by an unlocker
    | Release(i: nat)              // clear the flag, or decrement the count
    | Broadcast(i: nat)            // wake all sleepers and drop the mutex

  function Init(n: nat): Lock {
    Lock(None, 0, false, seq(n, _ => Idle))
  }

  predicate At(s: Lock, i: nat) { i < |s.threads| }

  predicate Enabled(s: Lock, e: Event) {
    match e
    case Call(i, _) => At(s, i) && s.threads[i] == Idle
    case Take(i) => At(s, i) && s.threads[i].Locking? && s.mutex == None
    case Test(i) => At(s, i) && s.threads[i].Testing?
    case Return(i) => At(s, i) && s.threads[i].Holding?
    case TakeBack(i) => At(s, i) && s.threads[i].Unlocking? && s.mutex == None
    case Release(i) => At(s, i) && s.threads[i].Releasing?
    case Broadcast(i) => At(s, i) && s.threads[i] == Waking
  }

  /** The condition of the while loop: rdlock waits for writers, wrlock for everybody. */
  predicate MustWait(s: Lock, mode: Mode) {
    s.writeFlag || (mode == Exclusive && s.readers != 0)
  }

  function Wake(pc: Pc): Pc { if pc.Asleep? then Locking(pc.mode) else pc }

  function Step(s: Lock, e: Event): Lock
    requires Enabled(s, e)
  {
    match e
    case Call(i, mode) => s.(threads := s.threads[i := Locking(mode)])
    case Take(i) => s.(mutex := Some(i), threads := s.threads[i := Testing(s.threads[i].mode)])
    case Test(i) =>
      var mode := s.threads[i].mode;
      if MustWait(s, mode) then s.(mutex := None, threads := s.threads[i := Asleep(mode)])
      else if mode == Shared then
        s.(mutex := None, readers := s.readers + 1, threads := s.threads[i := Holding(mode)])
      else s.(mutex := None, writeFlag := true, threads := s.threads[i := Holding(mode)])
    case Return(i) => s.(threads := s.threads[i := Unlocking(s.threads[i].mode)])
    case TakeBack(i) => s.(mutex := Some(i), threads := s.threads[i := Releasing(s.threads[i].mode)])
    case Release(i) =>
      // the code looks at the flag, not at who is calling
      if s.writeFlag then s.(writeFlag := false, threads := s.threads[i := Waking])
      else s.(readers := s.readers - 1, threads := s.threads[i := Waking])
    case Broadcast(i) =>
      s.(mutex := None,
         threads := seq(|s.threads|, k requires 0 <= k < |s.threads| => if k == i then Idle else Wake(s.threads[k])))
  }

  // ---------------------------------------------------------------- the invariant

  predicate Holds(pc: Pc, mode: Mode) {
    (pc.Holding? || pc.Unlocking? || pc.Releasing?) && pc.mode == mode
  }

  predicate Reads(pc: Pc) { Holds(pc, Shared) }

  predicate Writes(pc: Pc) { Holds(pc, Exclusive) }

  predicate HasMutex(pc: Pc) { pc.Testing? || pc.Releasing? || pc == Waking }

  predicate Inv(s: Lock) {
    && s.readers == Count(s.threads, Reads)
    && Count(s.threads, Writes) == (if s.writeFlag then 1 else 0)
    && (s.writeFlag ==> s.readers == 0)
    && (forall i :: 0 <= i < |s.threads| ==> (HasMutex(s.threads[i]) <==> s.mutex == Some(i)))
    && (s.mutex.Some? ==> s.mutex.value < |s.threads|)
    && NoLostWakeUp(s)
  }

  /** Unless a broadcast is on its way, every sleeper still has a reason to sleep. */
  predicate NoLostWakeUp(s: Lock) {
    (s.mutex.Some? && s.mutex.value < |s.threads| && s.threads[s.mutex.value] == Waking)
    || forall i :: 0 <= i < |s.threads| && s.threads[i].Asleep? ==> MustWait(s, s.threads[i].mode)
  }

  lemma InitInv(n: nat)
    ensures Inv(Init(n))
  {
    CountNone(Init(n).threads, Reads);
    CountNone(Init(n).threads, Writes);
  }

  lemma WakeCounts(threads: seq<Pc>, i: nat, woken: seq<Pc>)
    requires i < |threads| == |woken| && threads[i] == Waking && woken[i] == Idle
    requires forall k :: 0 <= k < |threads| && k != i ==> woken[k] == Wake(threads[k])
    ensures Count(woken, Reads) == Count(threads, Reads) && Count(woken, Writes) == Count(threads, Writes)
  {
    CountSame(threads, woken, Reads, Reads);
    CountSame(threads, woken, Writes, Writes);
  }

  lemma BroadcastKeeps(s: Lock, i: nat)
    requires Inv(s) && Enabled(s, Broadcast(i))
    ensures Inv(Step(s, Broadcast(i)))
  {
    assert s.mutex == Some(i);
    WakeCounts(s.threads, i, Step(s, Broadcast(i)).threads);
  }

  lemma ReleaseKeeps(s: Lock, i: nat)
    requires Inv(s) && Enabled(s, Release(i))
    ensures Inv(Step(s, Release(i)))
  {
    MoveCounts(s.threads, i, Waking);
    CountNone(s.threads, Reads);
    CountNone(s.threads, Writes);
  }

  /** How moving one thread changes the two counts. */
  lemma MoveCounts(threads: seq<Pc>, i: nat, pc: Pc)
    requires i < |threads|
    ensures Count(threads[i := pc], Reads) == Count(threads, Reads) - One(Reads(threads[i])) + One(Reads(pc))
    ensures Count(threads[i := pc], Writes) == Count(threads, Writes) - One(Writes(threads[i])) + One(Writes(pc))
  {
    CountUpdate(threads, i, pc, Reads);
    CountUpdate(threads, i, pc, Writes);
  }

  lemma TestKeeps(s: Lock, i: nat)
    requires Inv(s) && Enabled(s, Test(i))
    ensures Inv(Step(s, Test(i)))
  {
    assert s.mutex == Some(i);
    MoveCounts(s.threads, i, Step(s, Test(i)).threads[i]);
  }

  lemma TakeKeeps(s: Lock, i: nat)
    requires Inv(s) && Enabled(s, Take(i))
    ensures Inv(Step(s, Take(i)))
  {
    MoveCounts(s.threads, i, Step(s, Take(i)).threads[i]);
  }

  lemma TakeBackKeeps(s: Lock, i: nat)
    requires Inv(s) && Enabled(s, TakeBack(i))
    ensures Inv(Step(s, TakeBack(i)))
  {
    MoveCounts(s.threads, i, Step(s, TakeBack(i)).threads[i]);
  }

  lemma CallKeeps(s: Lock, i: nat, mode: Mode)
    requires Inv(s) && Enabled(s, Call(i, mode))
    ensures Inv(Step(s, Call(i, mode)))
  {
    assert !HasMutex(s.threads[i]);
    MoveCounts(s.threads, i, Locking(mode));
  }

  lemma ReturnKeeps(s: Lock, i: nat)
    requires Inv(s) && Enabled(s, Return(i))
    ensures Inv(Step(s, Return(i)))
  {
    assert !HasMutex(s.threads[i]);
    MoveCounts(s.threads, i, Unlocking(s.threads[i].mode));
  }

  lemma StepKeeps(s: Lock, e: Event)
    requires Inv(s) && Enabled(s, e)
    ensures Inv(Step(s, e))
  {
    match e
    case Call(i, mode) => CallKeeps(s, i, mode);
    case Take(i) => TakeKeeps(s, i);
    case Test(i) => TestKeeps(s, i);
    case Return(i) => ReturnKeeps(s, i);
    case TakeBack(i) => TakeBackKeeps(s, i);
    case Release(i) => ReleaseKeeps(s, i);
    case Broadcast(i) => BroadcastKeeps(s, i);
  }

  // ---------------------------------------------------------------- runs and main results

  ghost predicate Runs(s: Lock, es: seq<Event>, s': Lock)
    decreases |es|
  {
    if es == [] then s' == s
    else Enabled(s, es[0]) && Runs(Step(s, es[0]), es[1..], s')
  }

  lemma {:induction false} RunKeeps(s: Lock, es: seq<Event>, s': Lock)
    requires Inv(s) && Runs(s, es, s')
    ensures Inv(s')
    decreases |es|
  {
    if es != [] {
      StepKeeps(s, es[0]);
      RunKeeps(Step(s, es[0]), es[1..], s');
    }
  }

  /** Somebody holds the lock in a way that keeps a caller of this mode out. */
  ghost predicate KeptOut(s: Lock, mode: Mode) {
    exists k :: 0 <= k < |s.threads| && (Writes(s.threads[k]) || (mode == Exclusive && Reads(s.threads[k])))
  }

  lemma MustWaitMeans(s: Lock, mode: Mode)
    requires Inv(s)
    ensures MustWait(s, mode) <==> KeptOut(s, mode)
  {
    CountNone(s.threads, Reads);
    CountNone(s.threads, Writes);
    if k :| 0 <= k < |s.threads| && Writes(s.threads[k]) {
      CountSome(s.threads, Writes, k);
    }
    if k :| 0 <= k < |s.threads| && Reads(s.threads[k]) {
      CountSome(s.threads, Reads, k);
    }
  }

  /**
   Readers share and writers do not: a reader goes to sleep exactly when a thread holds the lock
   exclusively, a writer exactly when a thread holds it at all; otherwise it gets the lock in the mode it
   asked for.
  */
  lemma SleepsExactlyWhenKeptOut(n: nat, es: seq<Event>, s: Lock, i: nat)
    requires Runs(Init(n), es, s) && Enabled(s, Test(i))
    ensures var mode := s.threads[i].mode;
      && ModeBy(es, i) == Some(mode)
      && Step(s, Test(i)).threads[i] == if KeptOut(s, mode) then Asleep(mode) else Holding(mode)
  {
    InitInv(n);
    RunKeeps(Init(n), es, s);
    RunModes(Init(n), es, s, i, None);
    MustWaitMeans(s, s.threads[i].mode);
  }

  /** The mode thread i last called for, going by the events. */
  function ModeFrom(mode: Option<Mode>, es: seq<Event>, i: nat): Option<Mode>
    decreases |es|
  {
    if es == [] then mode
    else ModeFrom(if es[0].Call? && es[0].i == i then Some(es[0].mode) else mode, es[1..], i)
  }

  function ModeBy(es: seq<Event>, i: nat): Option<Mode> { ModeFrom(None, es, i) }

  predicate InMode(pc: Pc, mode: Option<Mode>) {
    pc == Idle || pc == Waking || mode == Some(pc.mode)
  }

  lemma {:induction false} RunModes(s: Lock, es: seq<Event>, s': Lock, i: nat, mode: Option<Mode>)
    requires Runs(s, es, s') && (i < |s.threads| ==> InMode(s.threads[i], mode))
    ensures |s'.threads| == |s.threads| && (i < |s.threads| ==> InMode(s'.threads[i], ModeFrom(mode, es, i)))
    decreases |es|
  {
    if es != [] {
      RunModes(Step(s, es[0]), es[1..], s', i, if es[0].Call? && es[0].i == i then Some(es[0].mode) else mode);
    }
  }

  /** Whoever has the lock has it in the mode of its last call. */
  lemma HeldAsCalled(n: nat, es: seq<Event>, s: Lock, i: nat)
    requires Runs(Init(n), es, s) && i < n
    ensures |s.threads| == n && (s.threads[i].Holding? ==> ModeBy(es, i) == Some(s.threads[i].mode))
  {
    RunModes(Init(n), es, s, i, None);
  }

  /** A writer excludes readers and other writers; the counter is the number of readers. */
  lemma WriterExcludesAll(n: nat, es: seq<Event>, s: Lock)
    requires Runs(Init(n), es, s)
    ensures s.readers == Count(s.threads, Reads)
    ensures forall i, j :: (0 <= i < |s.threads| && 0 <= j < |s.threads| && i != j
      && s.threads[i] == Holding(Exclusive)) ==> !s.threads[j].Holding?
  {
    InitInv(n);
    RunKeeps(Init(n), es, s);
    forall i, j | 0 <= i < |s.threads| && 0 <= j < |s.threads| && i != j && s.threads[i] == Holding(Exclusive)
      ensures !s.threads[j].Holding?
    {
      CountSome(s.threads, Writes, i);
      CountNone(s.threads, Reads);
      if Writes(s.threads[j]) {
        CountTwo(s.threads, Writes, if i < j then i else j, if i < j then j else i);
      }
    }
  }

  /** When the mutex is free, whoever sleeps is kept out by somebody who holds the lock. */
  lemma NobodySleepsInVain(n: nat, es: seq<Event>, s: Lock, i: nat)
    requires Runs(Init(n), es, s) && s.mutex == None && i < |s.threads| && s.threads[i].Asleep?
    ensures KeptOut(s, s.threads[i].mode)
  {
    InitInv(n);
    RunKeeps(Init(n), es, s);
    MustWaitMeans(s, s.threads[i].mode);
  }

  /**
   unlock never decrements a zero count: a caller that holds the lock shared finds the flag clear and the count
   positive.
  */
  lemma UnlockMatchesLock(n: nat, es: seq<Event>, s: Lock, i: nat)
    requires Runs(Init(n), es, s) && i < |s.threads| && s.threads[i].Releasing?
    ensures s.writeFlag <==> s.threads[i].mode == Exclusive
    ensures !s.writeFlag ==> 0 < s.readers
  {
    InitInv(n);
    RunKeeps(Init(n), es, s);
    CountNone(s.threads, Reads);
    CountNone(s.threads, Writes);
  }

  /** A thread that has the lock can go on towards releasing it. */
  lemma HolderMoves(s: Lock, k: nat) returns (e: Event)
    requires Inv(s) && s.mutex == None && k < |s.threads| && (Reads(s.threads[k]) || Writes(s.threads[k]))
    ensures Enabled(s, e) && !e.Call?
  {
    assert !HasMutex(s.threads[k]);
    e := if s.threads[k].Holding? then Return(k) else TakeBack(k);
  }

  /** While a thread has business with the lock, some thread can go on without anybody calling lock anew. */
  lemma NeverStuck(n: nat, es: seq<Event>, s: Lock, i: nat) returns (e: Event)
    requires Runs(Init(n), es, s) && i < |s.threads| && s.threads[i] != Idle
    ensures Enabled(s, e) && !e.Call?
  {
    InitInv(n);
    RunKeeps(Init(n), es, s);
    if s.mutex.Some? {
      var m := s.mutex.value;
      assert HasMutex(s.threads[m]);
      e := if s.threads[m].Testing? then Test(m) else if s.threads[m].Releasing? then Release(m) else Broadcast(m);
    } else if s.threads[i].Asleep? {
      NobodySleepsInVain(n, es, s, i);
      var k :| 0 <= k < |s.threads| && (Reads(s.threads[k]) || Writes(s.threads[k]));
      e := HolderMoves(s, k);
    } else {
      assert !HasMutex(s.threads[i]);
      e := if s.threads[i].Locking? then Take(i) else if s.threads[i].Holding? then Return(i) else TakeBack(i);
    }
  }
}
