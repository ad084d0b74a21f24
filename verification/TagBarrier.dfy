/**
 The execution-stream barrier of argobots/src/stream_barrier.c where pthread barriers are not
 available: a counter and a 63-bit tag under a spinlock.  The critical section is one step; a
 stream that is not the last to arrive then spins until the tag differs from the one it saw.
*/
module TagBarrier {
  import opened Counting

  /** The tag is kept to 63 bits. */
  const TAGS := 0x8000_0000_0000_0000

  /** A participant is outside the barrier or spins on the tag it read. */
  datatype Where = Outside | Spinning(tag: nat)

  /** `arrived` and `left` count a participant's calls begun and finished. */
  datatype Stream = Stream(at: Where, arrived: nat, left: nat)

  /** `round` counts the releases so far and is read by no step. */
  datatype Barrier = Barrier(counter: nat, tag: nat, streams: seq<Stream>, round: nat)

  datatype Event = Arrive(i: nat) | Leave(i: nat)

  function Init(n: nat): Barrier {
    Barrier(0, 0, seq(n, _ => Stream(Outside, 0, 0)), 0)
  }

  predicate Enabled(b: Barrier, e: Event) {
    match e
    case Arrive(i) => i < |b.streams| && b.streams[i].at.Outside?
    case Leave(i) => i < |b.streams| && b.streams[i].at.Spinning? && b.streams[i].at.tag != b.tag
  }

  function Step(b: Barrier, e: Event): Barrier
    requires Enabled(b, e)
  {
    match e
    case Arrive(i) =>
      var s := b.streams[i];
      if b.counter + 1 == |b.streams| then
        // the last one releases the others and returns
        Barrier(0, (b.tag + 1) % TAGS, b.streams[i := Stream(Outside, s.arrived + 1, s.left + 1)], b.round + 1)
      else
        b.(counter := b.counter + 1, streams := b.streams[i := Stream(Spinning(b.tag), s.arrived + 1, s.left)])
    case Leave(i) =>
      b.(streams := b.streams[i := b.streams[i].(at := Outside, left := b.streams[i].left + 1)])
  }

  // ---------------------------------------------------------------- the invariant

  /** Where a stream can be while `round` releases have happened. */
  predicate StreamOk(s: Stream, round: nat) {
    match s.at
    case Outside => s.arrived == s.left == round
    case Spinning(t) =>
      && s.left + 1 == s.arrived
      && ((s.arrived == round + 1 && t == round % TAGS) || (s.arrived == round && 0 < round && t == (round - 1) % TAGS))
  }

  function Waiting(round: nat): Stream -> bool {
    (s: Stream) => s.arrived == round + 1
  }

  predicate Inv(b: Barrier) {
    && 2 <= |b.streams|
    && b.tag == b.round % TAGS
    && (forall i :: 0 <= i < |b.streams| ==> StreamOk(b.streams[i], b.round))
    && b.counter == Count(b.streams, Waiting(b.round))
    && b.counter < |b.streams|
  }

  lemma InitInv(n: nat)
    requires 2 <= n
    ensures Inv(Init(n))
  {
    CountNone(Init(n).streams, Waiting(0));
  }

  /** Consecutive rounds have different tags. */
  lemma TagsDiffer(r: nat)
    ensures (r + 1) % TAGS != r % TAGS && (r + 1) % TAGS == (r % TAGS + 1) % TAGS
  {
  }

  lemma LastArrivalKeeps(b: Barrier, i: nat)
    requires Inv(b) && Enabled(b, Arrive(i)) && b.counter + 1 == |b.streams|
    ensures Inv(Step(b, Arrive(i)))
  {
    var s := b.streams[i];
    var s' := Stream(Outside, s.arrived + 1, s.left + 1);
    var streams' := b.streams[i := s'];
    CountUpdate(b.streams, i, s', Waiting(b.round));
    CountAll(streams', Waiting(b.round));
    TagsDiffer(b.round);
    forall k | 0 <= k < |streams'| ensures StreamOk(streams'[k], b.round + 1) {
      assert StreamOk(b.streams[k], b.round);
      assert Waiting(b.round)(streams'[k]);
    }
    CountNone(streams', Waiting(b.round + 1));
  }

  lemma StepKeeps(b: Barrier, e: Event)
    requires Inv(b) && Enabled(b, e)
    ensures Inv(Step(b, e))
  {
    match e
    case Arrive(i) =>
      if b.counter + 1 == |b.streams| {
        LastArrivalKeeps(b, i);
      } else {
        CountUpdate(b.streams, i, Step(b, e).streams[i], Waiting(b.round));
      }
    case Leave(i) =>
      CountUpdate(b.streams, i, Step(b, e).streams[i], Waiting(b.round));
  }

  // ---------------------------------------------------------------- runs

  ghost predicate Runs(b: Barrier, es: seq<Event>, b': Barrier)
    decreases |es|
  {
    if es == [] then b' == b
    else Enabled(b, es[0]) && Runs(Step(b, es[0]), es[1..], b')
  }

  lemma {:induction false} RunKeeps(b: Barrier, es: seq<Event>, b': Barrier)
    requires Inv(b) && Runs(b, es, b')
    ensures Inv(b')
    decreases |es|
  {
    if es != [] {
      StepKeeps(b, es[0]);
      RunKeeps(Step(b, es[0]), es[1..], b');
    }
  }

  /** How often stream i has called the barrier, going by the events. */
  function Arrivals(es: seq<Event>, i: nat): nat
    decreases |es|
  {
    if es == [] then 0 else (if es[0] == Arrive(i) then 1 else 0) + Arrivals(es[1..], i)
  }

  lemma {:induction false} RunArrivals(b: Barrier, es: seq<Event>, b': Barrier, i: nat)
    requires Runs(b, es, b') && i < |b.streams|
    ensures |b'.streams| == |b.streams| && b'.streams[i].arrived == b.streams[i].arrived + Arrivals(es, i)
    decreases |es|
  {
    if es != [] {
      RunArrivals(Step(b, es[0]), es[1..], b', i);
    }
  }

  /** The counts kept with a stream are its calls begun, and those finished: all but one it still spins in. */
  lemma CountsAreCalls(n: nat, es: seq<Event>, b: Barrier, i: nat)
    requires 2 <= n && Runs(Init(n), es, b) && i < n
    ensures |b.streams| == n && b.streams[i].arrived == Arrivals(es, i)
    ensures b.streams[i].left == Arrivals(es, i) - if b.streams[i].at.Spinning? then 1 else 0
  {
    InitInv(n);
    RunKeeps(Init(n), es, b);
    RunArrivals(Init(n), es, b, i);
    assert StreamOk(b.streams[i], b.round);
  }

  /**
   In every run nobody finishes a round before everybody has arrived in it: however often a
   stream has left, every stream has arrived at least that often.
  */
  lemma NobodyLeavesEarly(n: nat, es: seq<Event>, b: Barrier)
    requires 2 <= n && Runs(Init(n), es, b)
    ensures |b.streams| == n
    ensures forall i: nat, j: nat :: i < n && j < n ==>
      b.streams[i].left <= Arrivals(es, j) && (b.streams[i].at.Outside? ==> b.streams[i].left == Arrivals(es, i))
  {
    InitInv(n);
    RunKeeps(Init(n), es, b);
    CountsAreCalls(n, es, b, 0);
    forall i: nat, j: nat | i < n && j < n
      ensures b.streams[i].left <= Arrivals(es, j)
      ensures b.streams[i].at.Outside? ==> b.streams[i].left == Arrivals(es, i)
    {
      CountsAreCalls(n, es, b, i);
      CountsAreCalls(n, es, b, j);
      assert StreamOk(b.streams[i], b.round) && StreamOk(b.streams[j], b.round);
    }
  }

  /**
   A spinning stream can leave exactly when its round has been released.  The barrier is then
   at most that one round ahead of it, so the tag cannot come back to the value it waits on.
  */
  lemma SpinnerLeavesExactlyWhenReleased(n: nat, es: seq<Event>, b: Barrier, i: nat)
    requires 2 <= n && Runs(Init(n), es, b) && i < |b.streams| && b.streams[i].at.Spinning?
    ensures Enabled(b, Leave(i)) <==> b.streams[i].arrived <= b.round
    ensures b.round <= b.streams[i].arrived <= b.round + 1
  {
    InitInv(n);
    RunKeeps(Init(n), es, b);
    if 0 < b.round {
      TagsDiffer(b.round - 1);
    }
  }

  /** Some stream can always move: the participants never all spin on the current tag. */
  lemma NeverStuck(n: nat, es: seq<Event>, b: Barrier) returns (e: Event)
    requires 2 <= n && Runs(Init(n), es, b)
    ensures Enabled(b, e)
  {
    InitInv(n);
    RunKeeps(Init(n), es, b);
    CountAll(b.streams, Waiting(b.round));
    var i :| 0 <= i < |b.streams| && !Waiting(b.round)(b.streams[i]);
    if b.streams[i].at.Outside? {
      e := Arrive(i);
    } else {
      SpinnerLeavesExactlyWhenReleased(n, es, b, i);
      e := Leave(i);
    }
  }
}
