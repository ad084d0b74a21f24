/**
 The barrier of user-level threads of argobots/src/barrier.c: a counter and a list of blocked
 threads guarded by a spinlock.  Taking the lock, wait_and_unlock (sleep and release at once) and
 broadcast are single steps.  Any number of threads may use the barrier; it can be reinitialized
 between rounds.

 `arrived`, `released` and `left` are history: the arrivals counted so far, the group sizes of the
 releases so far added up, and the returns of ABT_barrier_wait so far.
*/
module UltBarrier {
  import opened Counting
  import opened Prelude

  datatype Pc =
    | Outside
    | Entering     // before the spinlock
    | Locked       // has the lock, before the counter
    | Last         // has the lock and completed the group, before the broadcast
    | Resetting    // has the lock, everybody is awake, before the counter is reset
    | Blocked      // in the wait list
    | Awake        // taken off the wait list, before returning

  datatype Barrier = Barrier(
    waiters: nat, counter: nat, lock: Option<nat>, threads: seq<Pc>,
    arrived: nat, released: nat, left: nat)

  datatype Event =
    | Call(i: nat)
    | Lock(i: nat)
    | Arrive(i: nat)       // count the caller in; sleep unless the group is complete
    | Broadcast(i: nat)
    | Reset(i: nat)        // counter back to 0, unlock and return
    | Return(i: nat)       // a woken thread returns
    | Reinit(waiters: nat) // ABT_barrier_reinit

  function Init(waiters: nat, n: nat): Barrier {
    Barrier(waiters, 0, None, seq(n, _ => Outside), 0, 0, 0)
  }

  predicate At(s: Barrier, i: nat, pc: Pc) { i < |s.threads| && s.threads[i] == pc }

  predicate Enabled(s: Barrier, e: Event) {
    match e
    case Call(i) => At(s, i, Outside)
    case Lock(i) => At(s, i, Entering) && s.lock == None
    case Arrive(i) => At(s, i, Locked)
    case Broadcast(i) => At(s, i, Last)
    case Reset(i) => At(s, i, Resetting)
    case Return(i) => At(s, i, Awake)
    case Reinit(w) =>
      // documented demands: nobody waits and nobody is in the middle of a call
      w != 0 && s.counter == 0 && forall i :: 0 <= i < |s.threads| ==> s.threads[i] in {Outside, Awake}
  }

  function Wake(pc: Pc): Pc { if pc == Blocked then Awake else pc }

  function Step(s: Barrier, e: Event): Barrier
    requires Enabled(s, e)
  {
    match e
    case Call(i) => s.(threads := s.threads[i := Entering])
    case Lock(i) => s.(lock := Some(i), threads := s.threads[i := Locked])
    case Arrive(i) =>
      if s.counter + 1 < s.waiters then
        s.(counter := s.counter + 1, arrived := s.arrived + 1, lock := None, threads := s.threads[i := Blocked])
      else s.(counter := s.counter + 1, arrived := s.arrived + 1, threads := s.threads[i := Last])
    case Broadcast(i) =>
      s.(released := s.released + s.waiters,
         threads := seq(|s.threads|, k requires 0 <= k < |s.threads| =>
           if k == i then Resetting else Wake(s.threads[k])))
    case Reset(i) => s.(counter := 0, lock := None, left := s.left + 1, threads := s.threads[i := Outside])
    case Return(i) => s.(left := s.left + 1, threads := s.threads[i := Outside])
    case Reinit(w) => s.(waiters := w)
  }

  // ---------------------------------------------------------------- the invariant

  predicate IsBlocked(pc: Pc) { pc == Blocked }

  /** Released and not yet returned. */
  predicate IsLeaving(pc: Pc) { pc in {Awake, Resetting} }

  predicate HasLock(pc: Pc) { pc in {Locked, Last, Resetting} }

  /** What the counter says, by the point its owner has reached. */
  predicate CounterRight(s: Barrier) {
    var blocked := Count(s.threads, IsBlocked);
    if s.lock == None then s.counter == blocked && s.counter < s.waiters && s.arrived == s.released + s.counter
    else
      var i := s.lock.value;
      i < |s.threads| &&
      match s.threads[i]
      case Last => s.counter == s.waiters == blocked + 1 && s.arrived == s.released + s.waiters
      case Resetting => s.counter == s.waiters && blocked == 0 && s.arrived == s.released
      case _ => s.counter == blocked && s.counter < s.waiters && s.arrived == s.released + s.counter
  }

  predicate Inv(s: Barrier) {
    && 0 < s.waiters
    && CounterRight(s)
    && (forall i :: 0 <= i < |s.threads| ==> (HasLock(s.threads[i]) <==> s.lock == Some(i)))
    && s.released == s.left + Count(s.threads, IsLeaving)
  }

  lemma InitInv(waiters: nat, n: nat)
    requires 0 < waiters
    ensures Inv(Init(waiters, n))
  {
    CountNone(Init(waiters, n).threads, IsBlocked);
    CountNone(Init(waiters, n).threads, IsLeaving);
  }

  /** How moving one thread changes the two counts. */
  lemma MoveCounts(threads: seq<Pc>, i: nat, pc: Pc)
    requires i < |threads|
    ensures Count(threads[i := pc], IsBlocked) ==
      Count(threads, IsBlocked) - One(threads[i] == Blocked) + One(pc == Blocked)
    ensures Count(threads[i := pc], IsLeaving) ==
      Count(threads, IsLeaving) - One(IsLeaving(threads[i])) + One(IsLeaving(pc))
  {
    CountUpdate(threads, i, pc, IsBlocked);
    CountUpdate(threads, i, pc, IsLeaving);
  }

  lemma CallKeeps(s: Barrier, i: nat)
    requires Inv(s) && Enabled(s, Call(i))
    ensures Inv(Step(s, Call(i)))
  {
    MoveCounts(s.threads, i, Step(s, Call(i)).threads[i]);
  }

  lemma LockKeeps(s: Barrier, i: nat)
    requires Inv(s) && Enabled(s, Lock(i))
    ensures Inv(Step(s, Lock(i)))
  {
    MoveCounts(s.threads, i, Step(s, Lock(i)).threads[i]);
  }

  lemma ArriveKeeps(s: Barrier, i: nat)
    requires Inv(s) && Enabled(s, Arrive(i))
    ensures Inv(Step(s, Arrive(i)))
  {
    assert s.lock == Some(i);
    MoveCounts(s.threads, i, Step(s, Arrive(i)).threads[i]);
  }

  lemma ResetKeeps(s: Barrier, i: nat)
    requires Inv(s) && Enabled(s, Reset(i))
    ensures Inv(Step(s, Reset(i)))
  {
    assert s.lock == Some(i);
    MoveCounts(s.threads, i, Step(s, Reset(i)).threads[i]);
  }

  lemma ReturnKeeps(s: Barrier, i: nat)
    requires Inv(s) && Enabled(s, Return(i))
    ensures Inv(Step(s, Return(i)))
  {
    MoveCounts(s.threads, i, Step(s, Return(i)).threads[i]);
  }

  lemma {:induction false} WakeMoves(threads: seq<Pc>, i: nat, woken: seq<Pc>)
    requires |woken| == |threads|
    requires forall k :: 0 <= k < |threads| && k != i ==> woken[k] == Wake(threads[k])
    requires i < |threads| ==> threads[i] == Last && woken[i] == Resetting
    ensures Count(woken, IsBlocked) == 0
    ensures Count(woken, IsLeaving) ==
      Count(threads, IsLeaving) + Count(threads, IsBlocked) + if i < |threads| then 1 else 0
  {
    if threads != [] {
      WakeMoves(threads[..|threads| - 1], i, woken[..|woken| - 1]);
    }
  }

  lemma BroadcastKeeps(s: Barrier, i: nat)
    requires Inv(s) && Enabled(s, Broadcast(i))
    ensures Inv(Step(s, Broadcast(i)))
  {
    assert s.lock == Some(i);
    WakeMoves(s.threads, i, Step(s, Broadcast(i)).threads);
  }

  lemma ReinitKeeps(s: Barrier, w: nat)
    requires Inv(s) && Enabled(s, Reinit(w))
    ensures Inv(Step(s, Reinit(w)))
  {
  }

  lemma StepKeeps(s: Barrier, e: Event)
    requires Inv(s) && Enabled(s, e)
    ensures Inv(Step(s, e))
  {
    match e
    case Broadcast(i) => BroadcastKeeps(s, i);
    case Reinit(w) => ReinitKeeps(s, w);
    case Call(i) => CallKeeps(s, i);
    case Lock(i) => LockKeeps(s, i);
    case Arrive(i) => ArriveKeeps(s, i);
    case Reset(i) => ResetKeeps(s, i);
    case Return(i) => ReturnKeeps(s, i);
  }

  // ---------------------------------------------------------------- runs and main results

  ghost predicate Runs(s: Barrier, es: seq<Event>, s': Barrier)
    decreases |es|
  {
    if es == [] then s' == s
    else Enabled(s, es[0]) && Runs(Step(s, es[0]), es[1..], s')
  }

  lemma {:induction false} RunKeeps(s: Barrier, es: seq<Event>, s': Barrier)
    requires Inv(s) && Runs(s, es, s')
    ensures Inv(s')
    decreases |es|
  {
    if es != [] {
      StepKeeps(s, es[0]);
      RunKeeps(Step(s, es[0]), es[1..], s');
    }
  }

  /** What the events add up to: the size of a group, and the three histories. */
  datatype Tally = Tally(waiters: nat, arrived: nat, released: nat, left: nat)

  function TallyAfter(t: Tally, e: Event): Tally {
    match e
    case Arrive(_) => t.(arrived := t.arrived + 1)
    case Broadcast(_) => t.(released := t.released + t.waiters)
    case Reset(_) => t.(left := t.left + 1)
    case Return(_) => t.(left := t.left + 1)
    case Reinit(w) => t.(waiters := w)
    case _ => t
  }

  function TallyBy(t: Tally, es: seq<Event>): Tally
    decreases |es|
  {
    if es == [] then t else TallyBy(TallyAfter(t, es[0]), es[1..])
  }

  function Tallied(s: Barrier): Tally { Tally(s.waiters, s.arrived, s.released, s.left) }

  /** num_waiters is that of the last reinitialization, and the histories are what the events add up to. */
  lemma {:induction false} RunTallies(s: Barrier, es: seq<Event>, s': Barrier)
    requires Runs(s, es, s')
    ensures Tallied(s') == TallyBy(Tallied(s), es)
    decreases |es|
  {
    if es != [] {
      RunTallies(Step(s, es[0]), es[1..], s');
    }
  }

  /** Whenever the spinlock is free, the counter is the number of blocked threads, and it is below num_waiters. */
  lemma CounterIsBlockedCount(waiters: nat, n: nat, es: seq<Event>, s: Barrier)
    requires 0 < waiters && Runs(Init(waiters, n), es, s) && s.lock == None
    ensures s.counter == Count(s.threads, IsBlocked) < s.waiters
  {
    InitInv(waiters, n);
    RunKeeps(Init(waiters, n), es, s);
  }

  /** The assertion at the top of ABT_barrier_wait holds in every run. */
  lemma ArrivalAssertionHolds(waiters: nat, n: nat, es: seq<Event>, s: Barrier, i: nat)
    requires 0 < waiters && Runs(Init(waiters, n), es, s) && Enabled(s, Arrive(i))
    ensures s.counter < s.waiters
  {
    InitInv(waiters, n);
    RunKeeps(Init(waiters, n), es, s);
  }

  /** A release frees exactly num_waiters - 1 blocked threads, every blocked one. */
  lemma ReleaseFreesGroup(waiters: nat, n: nat, es: seq<Event>, s: Barrier, i: nat)
    requires 0 < waiters && Runs(Init(waiters, n), es, s) && Enabled(s, Broadcast(i))
    ensures Count(s.threads, IsBlocked) == s.waiters - 1
    ensures var s' := Step(s, Broadcast(i));
      Count(s'.threads, IsBlocked) == 0 && Count(s'.threads, IsLeaving) == Count(s.threads, IsLeaving) + s.waiters
  {
    InitInv(waiters, n);
    RunKeeps(Init(waiters, n), es, s);
    WakeMoves(s.threads, i, Step(s, Broadcast(i)).threads);
  }

  /** Only complete groups leave: the returns so far never exceed the sizes of the groups completed so far. */
  lemma OnlyGroupsLeave(waiters: nat, n: nat, es: seq<Event>, s: Barrier)
    requires 0 < waiters && Runs(Init(waiters, n), es, s)
    ensures var t := TallyBy(Tally(waiters, 0, 0, 0), es);
      && t.waiters == s.waiters
      && t.left + Count(s.threads, IsLeaving) == t.released <= t.arrived <= t.released + t.waiters
      && (s.lock == None ==> t.arrived == t.released + Count(s.threads, IsBlocked))
  {
    RunTallies(Init(waiters, n), es, s);
    InitInv(waiters, n);
    RunKeeps(Init(waiters, n), es, s);
  }

  /**
   Without new calls the barrier stands still exactly when every thread is outside or blocked, and then the group is
   incomplete.
  */
  lemma StandsStillOnlyIncomplete(waiters: nat, n: nat, es: seq<Event>, s: Barrier)
    requires 0 < waiters && Runs(Init(waiters, n), es, s)
    ensures (forall e :: Enabled(s, e) ==> e.Call? || e.Reinit?)
      <==> forall i :: 0 <= i < |s.threads| ==> s.threads[i] in {Outside, Blocked}
    ensures (forall i :: 0 <= i < |s.threads| ==> s.threads[i] in {Outside, Blocked}) ==>
      Count(s.threads, IsBlocked) < s.waiters
  {
    InitInv(waiters, n);
    RunKeeps(Init(waiters, n), es, s);
    if i :| 0 <= i < |s.threads| && s.threads[i] !in {Outside, Blocked} {
      var j := if s.lock.Some? then s.lock.value else i;
      assert s.lock.Some? ==> HasLock(s.threads[j]);
      var pc := s.threads[j];
      var e := if pc == Entering then Lock(j) else if pc == Locked then Arrive(j) else if pc == Last then Broadcast(j)
        else if pc == Resetting then Reset(j) else Return(j);
      assert Enabled(s, e);
    }
  }
}
