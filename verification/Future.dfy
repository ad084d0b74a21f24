/**
 The future of argobots/src/futures.c: an array of compartments, a counter of those set, a callback
 and a list of blocked threads, guarded by a spinlock.  ABT_future_set writes the array, runs the
 callback, publishes the counter and wakes the waiters in separate steps, and ABT_future_test reads
 the counter without the lock at any moment between them.

 `values` and `calls` are history: the values set and the arguments of the callback since the last reset;
 ValuesAreSet ties them to the calls.
*/
module Future {
  import opened Prelude

  /** What a compartment holds: a pointer the future never looks through. */
  type Value = int

  datatype Pc =
    | Outside
    | SetEntering(v: Value) | SetLocked(v: Value)
    | Written      // array slot written, before the callback
    | Called       // callback done or not due, before the counter is published
    | Published    // counter published, before broadcast and unlock
    | WaitEntering | WaitLocked | Blocked | Awake
    | ResetEntering | ResetLocked

  datatype State = State(
    callback: bool, cells: seq<Value>, counter: nat, lock: Option<nat>, threads: seq<Pc>,
    values: seq<Value>, calls: seq<seq<Value>>)

  datatype Event =
    | CallSet(i: nat, v: Value) | CallWait(i: nat) | CallReset(i: nat)
    | Lock(i: nat)
    | Write(i: nat)        // reject when all compartments are set, otherwise fill the next one
    | Callback(i: nat)     // run the callback when this was the last compartment
    | Publish(i: nat)
    | Finish(i: nat)       // wake all waiters when ready, unlock and return
    | Wait(i: nat)         // return when ready, otherwise sleep
    | Return(i: nat)
    | Reset(i: nat)

  /** A future with the given compartments, contents undefined, used by n threads. */
  function Init(cells: seq<Value>, callback: bool, n: nat): State {
    State(callback, cells, 0, None, seq(n, _ => Outside), [], [])
  }

  /** ABT_future_test. */
  predicate Test(s: State) { s.counter == |s.cells| }

  predicate Enters(pc: Pc) { pc.SetEntering? || pc.WaitEntering? || pc.ResetEntering? }

  predicate Enabled(s: State, e: Event) {
    e.i < |s.threads| &&
    var pc := s.threads[e.i];
    match e
    case CallSet(_, _) => pc.Outside?
    case CallWait(_) => pc.Outside?
    case CallReset(_) => pc.Outside?
    case Lock(_) => Enters(pc) && s.lock == None
    case Write(_) => pc.SetLocked?
    case Callback(_) => pc.Written?
    case Publish(_) => pc.Called?
    case Finish(_) => pc.Published?
    case Wait(_) => pc.WaitLocked?
    case Return(_) => pc.Awake?
    case Reset(_) =>
      // resetting a future that has waiters is undefined
      pc.ResetLocked? && forall k :: 0 <= k < |s.threads| ==> !s.threads[k].Blocked?
  }

  function Inside(pc: Pc): Pc
    requires Enters(pc)
  {
    if pc.SetEntering? then SetLocked(pc.v) else if pc.WaitEntering? then WaitLocked else ResetLocked
  }

  function Wake(pc: Pc): Pc { if pc.Blocked? then Awake else pc }

  function Move(s: State, i: nat, pc: Pc): State
    requires i < |s.threads|
  {
    s.(threads := s.threads[i := pc])
  }

  function Step(s: State, e: Event): State
    requires Enabled(s, e)
  {
    var i := e.i;
    match e
    case CallSet(_, v) => Move(s, i, SetEntering(v))
    case CallWait(_) => Move(s, i, WaitEntering)
    case CallReset(_) => Move(s, i, ResetEntering)
    case Lock(_) => Move(s, i, Inside(s.threads[i])).(lock := Some(i))
    case Write(_) =>
      if s.counter >= |s.cells| then Move(s, i, Outside).(lock := None)
      else
        Move(s, i, Written).(cells := s.cells[s.counter := s.threads[i].v], values := s.values + [s.threads[i].v])
    case Callback(_) =>
      if s.counter + 1 == |s.cells| && s.callback then Move(s, i, Called).(calls := s.calls + [s.cells])
      else Move(s, i, Called)
    case Publish(_) => Move(s, i, Published).(counter := s.counter + 1)
    case Finish(_) =>
      s.(lock := None,
         threads := seq(|s.threads|, k requires 0 <= k < |s.threads| =>
           if k == i then Outside else if s.counter == |s.cells| then Wake(s.threads[k]) else s.threads[k]))
    case Wait(_) => Move(s, i, if s.counter < |s.cells| then Blocked else Outside).(lock := None)
    case Return(_) => Move(s, i, Outside)
    case Reset(_) => Move(s, i, Outside).(lock := None, counter := 0, values := [], calls := [])
  }

  // ---------------------------------------------------------------- the invariant

  predicate HasLock(pc: Pc) {
    pc.SetLocked? || pc.Written? || pc.Called? || pc.Published? || pc.WaitLocked? || pc.ResetLocked?
  }

  predicate LockRight(s: State) {
    && (forall i :: 0 <= i < |s.threads| ==> (HasLock(s.threads[i]) <==> s.lock == Some(i)))
    && (s.lock.Some? ==> s.lock.value < |s.threads|)
  }

  /** Where the owner of the lock is. */
  function Owner(s: State): Pc {
    if s.lock.Some? && s.lock.value < |s.threads| then s.threads[s.lock.value] else Outside
  }

  /** The compartments hold the values set since the last reset, in order; a setter may be one ahead of the counter. */
  predicate Compartments(s: State) {
    && |s.values| == s.counter + (if Owner(s) in {Written, Called} then 1 else 0)
    && s.values <= s.cells
  }

  /** The callback has run once with the full array when all are set, and not at all before. */
  predicate Calls(s: State) {
    s.calls == if s.callback && 0 < |s.values| == |s.cells| && Owner(s) != Written then [s.cells] else []
  }

  predicate SleepersWait(s: State) {
    s.counter == |s.cells| && Owner(s) != Published ==> forall k :: 0 <= k < |s.threads| ==> !s.threads[k].Blocked?
  }

  predicate Inv(s: State) {
    LockRight(s) && Compartments(s) && Calls(s) && SleepersWait(s)
  }

  lemma InitInv(cells: seq<Value>, callback: bool, n: nat)
    ensures Inv(Init(cells, callback, n))
  {
  }

  lemma SetterKeeps(s: State, e: Event)
    requires Inv(s) && Enabled(s, e) && (e.Write? || e.Callback? || e.Publish?)
    ensures Inv(Step(s, e))
  {
    assert s.lock == Some(e.i);
    if e.Write? && s.counter < |s.cells| {
      var v := s.threads[e.i].v;
      assert s.cells[s.counter := v][..s.counter + 1] == s.values + [v];
    }
  }

  lemma FinishKeeps(s: State, i: nat)
    requires Inv(s) && Enabled(s, Finish(i))
    ensures Inv(Step(s, Finish(i)))
  {
    assert s.lock == Some(i);
  }

  lemma CallKeeps(s: State, e: Event)
    requires Inv(s) && Enabled(s, e) && (e.CallSet? || e.CallWait? || e.CallReset? || e.Return?)
    ensures Inv(Step(s, e))
  {
    assert !HasLock(s.threads[e.i]);
  }

  lemma LockKeeps(s: State, i: nat)
    requires Inv(s) && Enabled(s, Lock(i))
    ensures Inv(Step(s, Lock(i)))
  {
  }

  lemma WaitKeeps(s: State, i: nat)
    requires Inv(s) && Enabled(s, Wait(i))
    ensures Inv(Step(s, Wait(i)))
  {
    assert s.lock == Some(i);
  }

  lemma ResetKeeps(s: State, i: nat)
    requires Inv(s) && Enabled(s, Reset(i))
    ensures Inv(Step(s, Reset(i)))
  {
    assert s.lock == Some(i);
  }

  lemma StepKeeps(s: State, e: Event)
    requires Inv(s) && Enabled(s, e)
    ensures Inv(Step(s, e))
  {
    if e.Write? || e.Callback? || e.Publish? {
      SetterKeeps(s, e);
    } else if e.Finish? {
      FinishKeeps(s, e.i);
    } else if e.Lock? {
      LockKeeps(s, e.i);
    } else if e.Wait? {
      WaitKeeps(s, e.i);
    } else if e.Reset? {
      ResetKeeps(s, e.i);
    } else {
      CallKeeps(s, e);
    }
  }

  // ---------------------------------------------------------------- runs

  ghost predicate Runs(s: State, es: seq<Event>, s': State)
    decreases |es|
  {
    if es == [] then s' == s
    else Enabled(s, es[0]) && Runs(Step(s, es[0]), es[1..], s')
  }

  lemma {:induction false} RunKeeps(s: State, es: seq<Event>, s': State)
    requires Inv(s) && Runs(s, es, s')
    ensures Inv(s') && |s'.cells| == |s.cells| && s'.callback == s.callback
    decreases |es|
  {
    if es != [] {
      StepKeeps(s, es[0]);
      RunKeeps(Step(s, es[0]), es[1..], s');
    }
  }

  // ---------------------------------------------------------------- what the calls make of it

  /** The arguments of the calls of set, the values set since the last reset, and what the callback was run with. */
  datatype Plain = Plain(args: map<nat, Value>, values: seq<Value>, calls: seq<seq<Value>>)

  /** What an event means for callers of a future with n compartments. */
  function PlainAfter(p: Plain, e: Event, n: nat, callback: bool): Plain {
    match e
    case CallSet(i, v) => p.(args := p.args[i := v])
    case Write(i) => if |p.values| < n && i in p.args then p.(values := p.values + [p.args[i]]) else p
    case Callback(_) => if |p.values| == n && callback then p.(calls := p.calls + [p.values]) else p
    case Reset(_) => p.(values := [], calls := [])
    case _ => p
  }

  function PlainBy(p: Plain, es: seq<Event>, n: nat, callback: bool): Plain
    decreases |es|
  {
    if es == [] then p else PlainBy(PlainAfter(p, es[0], n, callback), es[1..], n, callback)
  }

  /** The values set since the last reset, going by the events alone. */
  function ValuesBy(es: seq<Event>, n: nat, callback: bool): seq<Value> {
    PlainBy(Plain(map[], [], []), es, n, callback).values
  }

  /** What the callback was called with since then. */
  function CallsBy(es: seq<Event>, n: nat, callback: bool): seq<seq<Value>> {
    PlainBy(Plain(map[], [], []), es, n, callback).calls
  }

  predicate Means(s: State, p: Plain) {
    && s.values == p.values && s.calls == p.calls
    && forall i: nat :: i < |s.threads| && (s.threads[i].SetEntering? || s.threads[i].SetLocked?) ==>
      i in p.args && p.args[i] == s.threads[i].v
  }

  lemma StepMeans(s: State, p: Plain, e: Event)
    requires Inv(s) && Means(s, p) && Enabled(s, e)
    ensures Means(Step(s, e), PlainAfter(p, e, |s.cells|, s.callback))
  {
    if e.Write? || e.Callback? {
      assert s.lock == Some(e.i);
    }
    if e.Callback? && |s.values| == |s.cells| {
      assert s.cells == s.values;
    }
  }

  lemma {:induction false} RunMeans(s: State, p: Plain, es: seq<Event>, s': State)
    requires Inv(s) && Means(s, p) && Runs(s, es, s')
    ensures Means(s', PlainBy(p, es, |s.cells|, s.callback))
    decreases |es|
  {
    if es != [] {
      StepKeeps(s, es[0]);
      StepMeans(s, p, es[0]);
      RunMeans(Step(s, es[0]), PlainAfter(p, es[0], |s.cells|, s.callback), es[1..], s');
    }
  }

  /** The values and callback runs kept with the future are those of the calls. */
  lemma ValuesAreSet(cells: seq<Value>, callback: bool, n: nat, es: seq<Event>, s: State)
    requires Runs(Init(cells, callback, n), es, s)
    ensures s.values == ValuesBy(es, |cells|, callback) && s.calls == CallsBy(es, |cells|, callback)
  {
    InitInv(cells, callback, n);
    RunMeans(Init(cells, callback, n), Plain(map[], [], []), es, s);
  }

  /**
   With the lock free, a future is ready exactly when as many values as it has compartments were set since
   the last reset; so a reset future that has compartments is not.
  */
  lemma ReadyExactlyWhenAllSet(cells: seq<Value>, callback: bool, n: nat, es: seq<Event>, s: State)
    requires Runs(Init(cells, callback, n), es, s) && s.lock == None
    ensures Test(s) <==> |ValuesBy(es, |cells|, callback)| == |cells|
  {
    ValuesAreSet(cells, callback, n, es, s);
    InitInv(cells, callback, n);
    RunKeeps(Init(cells, callback, n), es, s);
  }

  // ---------------------------------------------------------------- main results

  /**
   Whoever sees a future with compartments ready, without the lock and at any moment, finds every
   compartment holding its value in order and the callback already run, exactly once, with them.
  */
  lemma ReadyMeansFilledAndCalled(cells: seq<Value>, callback: bool, n: nat, es: seq<Event>, s: State)
    requires Runs(Init(cells, callback, n), es, s) && cells != [] && Test(s)
    ensures |s.cells| == |cells| && ValuesBy(es, |cells|, callback) == s.cells
    ensures CallsBy(es, |cells|, callback) == if callback then [s.cells] else []
  {
    ValuesAreSet(cells, callback, n, es, s);
    InitInv(cells, callback, n);
    RunKeeps(Init(cells, callback, n), es, s);
    assert s.values <= s.cells;
  }

  /** Before the last compartment is filled the callback has not run, and it never runs twice between resets. */
  lemma NoEarlyCallback(cells: seq<Value>, callback: bool, n: nat, es: seq<Event>, s: State)
    requires Runs(Init(cells, callback, n), es, s)
    ensures var values, calls := ValuesBy(es, |cells|, callback), CallsBy(es, |cells|, callback);
      && (|values| < |cells| || cells == [] ==> calls == [])
      && |calls| <= 1 && forall k :: 0 <= k < |calls| ==> calls[k] == values
  {
    ValuesAreSet(cells, callback, n, es, s);
    InitInv(cells, callback, n);
    RunKeeps(Init(cells, callback, n), es, s);
    assert |s.values| == |s.cells| ==> s.values == s.cells;
  }

  /** Whenever the lock is free the first `counter` compartments are the values set since the last reset. */
  lemma ArrayIsValues(cells: seq<Value>, callback: bool, n: nat, es: seq<Event>, s: State)
    requires Runs(Init(cells, callback, n), es, s) && s.lock == None
    ensures s.counter <= |s.cells| && s.cells[..s.counter] == ValuesBy(es, |cells|, callback)
  {
    ValuesAreSet(cells, callback, n, es, s);
    InitInv(cells, callback, n);
    RunKeeps(Init(cells, callback, n), es, s);
  }

  /** ABT_future_set fails, changing nothing, exactly when the future tests ready. */
  lemma SetFailsExactlyWhenReady(cells: seq<Value>, callback: bool, n: nat, es: seq<Event>, s: State, i: nat)
    requires Runs(Init(cells, callback, n), es, s) && Enabled(s, Write(i))
    ensures var s' := Step(s, Write(i));
      if Test(s) then s'.values == s.values && s'.cells == s.cells && s'.threads[i].Outside?
      else s'.values == s.values + [s.threads[i].v] && s'.threads[i].Written?
  {
    InitInv(cells, callback, n);
    RunKeeps(Init(cells, callback, n), es, s);
  }

  /**
   A blocked or deciding waiter leaves the wait only while the future tests ready, and with the lock free nobody
   sleeps on a ready one.
  */
  lemma WaitEndsExactlyWhenReady(cells: seq<Value>, callback: bool, n: nat, es: seq<Event>, s: State, e: Event, k: nat)
    requires Runs(Init(cells, callback, n), es, s) && Enabled(s, e) && k < |s.threads|
    ensures s.threads[k].Blocked? || s.threads[k].WaitLocked? ==>
      var pc := Step(s, e).threads[k]; (pc.Awake? || pc.Outside? ==> Test(s))
    ensures s.threads[k].Blocked? && s.lock == None ==> !Test(s)
  {
    InitInv(cells, callback, n);
    RunKeeps(Init(cells, callback, n), es, s);
  }

  /**
   Unless every thread is outside or asleep on a future that is not ready, somebody inside can go on (a reset is held
   up only by waiters).
  */
  lemma NeverStuck(cells: seq<Value>, callback: bool, n: nat, es: seq<Event>, s: State, i: nat) returns (e: Event)
    requires Runs(Init(cells, callback, n), es, s) && i < |s.threads| && !s.threads[i].Outside?
      && !s.threads[i].Blocked?
    requires Owner(s) == ResetLocked ==> forall k :: 0 <= k < |s.threads| ==> !s.threads[k].Blocked?
    ensures Enabled(s, e) && !e.CallSet? && !e.CallWait? && !e.CallReset?
  {
    InitInv(cells, callback, n);
    RunKeeps(Init(cells, callback, n), es, s);
    var j := if s.lock.Some? then s.lock.value else i;
    assert s.lock.Some? ==> HasLock(s.threads[j]);
    var pc := s.threads[j];
    e := if pc.SetLocked? then Write(j) else if pc.Written? then Callback(j) else if pc.Called? then Publish(j)
      else if pc.Published? then Finish(j) else if pc.WaitLocked? then Wait(j) else if pc.ResetLocked? then Reset(j)
      else if pc.Awake? then Return(j) else Lock(j);
  }
}
