/**
 Runs of the queue pair and its drive: what holds in every state some interleaving of their events
 can reach, and when the two can make progress.
*/
module QueuePairRuns {
  import opened Prelude
  import opened Addressing
  import opened Counting
  import opened QueuePair

  // ---------------------------------------------------------------- runs

  /** The state after the events `es`, if each was enabled when its turn came. */
  function Exec(q: Q, es: seq<Event>): Option<Q> {
    if es == [] then Some(q)
    else
      var k := |es| - 1;
      match Exec(q, es[..k])
      case Some(p) => if Enabled(p, es[k]) then Some(Step(p, es[k])) else None
      case None => None
  }

  lemma {:induction false} ExecAppend(q: Q, a: seq<Event>, b: seq<Event>)
    requires Exec(q, a).Some?
    ensures Exec(q, a + b) == Exec(Exec(q, a).value, b)
  {
    if b == [] {
      assert a + b == a;
    } else {
      ExecAppend(q, a, b[..|b| - 1]);
      assert (a + b)[..|a + b| - 1] == a + b[..|b| - 1];
    }
  }

  lemma {:induction false} RunKeeps(q: Q, es: seq<Event>)
    requires Inv(q) && Exec(q, es).Some?
    ensures Inv(Exec(q, es).value)
  {
    if es != [] {
      var k := |es| - 1;
      RunKeeps(q, es[..k]);
      StepKeeps(Exec(q, es[..k]).value, es[k]);
    }
  }

  lemma RunsKeepShape(q: Q)
    ensures (exists n: nat, es :: 0 < n && Exec(Init(n), es) == Some(q)) ==> Shape(q)
  {
    if n: nat, es :| 0 < n && Exec(Init(n), es) == Some(q) {
      InitInv(n);
      RunKeeps(Init(n), es);
    }
  }

  /** Every state some interleaving of host and drive can reach from the constructor's. */
  ghost predicate Reachable(q: Q)
    ensures Reachable(q) ==> Shape(q)
  {
    RunsKeepShape(q);
    exists n: nat, es :: 0 < n && Exec(Init(n), es) == Some(q)
  }

  lemma ReachableInv(q: Q)
    requires Reachable(q)
    ensures Inv(q)
  {
    var n: nat, es :| 0 < n && Exec(Init(n), es) == Some(q);
    InitInv(n);
    RunKeeps(Init(n), es);
  }

  lemma ReachableExtends(q: Q, es: seq<Event>)
    requires Reachable(q) && Exec(q, es).Some?
    ensures Reachable(Exec(q, es).value)
  {
    var n: nat, before :| 0 < n && Exec(Init(n), before) == Some(q);
    ExecAppend(Init(n), before, es);
  }

  lemma OneEvent(q: Q, e: Event)
    requires Enabled(q, e)
    ensures Exec(q, [e]) == Some(Step(q, e))
  {
    assert [e][..0] == [] && Exec(q, []) == Some(q);
  }

  lemma ReachableStep(q: Q, e: Event)
    requires Reachable(q) && Enabled(q, e)
    ensures Reachable(Step(q, e)) && Exec(q, [e]) == Some(Step(q, e))
  {
    OneEvent(q, e);
    ReachableExtends(q, [e]);
  }

  // ---------------------------------------------------------------- main results

  /**
   check_cq sees a new completion exactly when one is posted and unread; it consumes them in
   posting order, and no command is posted or consumed twice.
  */
  lemma CompletionsConsumedOnceInOrder(q: Q)
    requires Reachable(q)
    ensures Enabled(q, Reap) <==> |q.reaped| < |q.posted|
    ensures q.reaped <= q.posted
    ensures forall i, j :: 0 <= i < j < |q.posted| ==> q.posted[i] != q.posted[j]
    ensures Enabled(q, Reap) ==> ReapStep(q).reaped == q.posted[..|q.reaped| + 1]
    ensures forall t :: 0 <= t < |q.sent| && q.stage[t] == Reaped ==> t in q.reaped
  {
    ReachableInv(q);
    PhaseTellsUnread(q);
    ReapedInLog(q);
    if Enabled(q, Reap) {
      ReapTakesNext(q);
    }
  }

  lemma ReapTakesNext(q: Q)
    requires Shape(q) && Stages(q) && Enabled(q, Reap) && |q.reaped| < |q.posted|
      && q.owner[q.cq[q.cqHead].cid] == q.posted[|q.reaped|]
    ensures ReapStep(q).reaped == q.posted[..|q.reaped| + 1]
  {
    assert q.posted[..|q.reaped| + 1] == q.posted[..|q.reaped|] + [q.posted[|q.reaped|]];
  }

  lemma ReapedInLog(q: Q)
    requires Shape(q) && Stages(q)
    ensures forall t :: 0 <= t < |q.sent| && q.stage[t] == Reaped ==> t in q.reaped
  {
    forall t | 0 <= t < |q.sent| && q.stage[t] == Reaped ensures t in q.reaped {
      var k :| 0 <= k < |q.posted| && q.posted[k] == t;
      assert k < |q.reaped|;
      assert q.reaped[k] == t;
    }
  }

  /** The ring entry of the k-th posted completion, while it is unread. */
  function Entry(q: Q, k: nat): nat
    requires Shape(q) && |q.reaped| <= k < |q.reaped| + q.n
  {
    Wrap(q.cqHead + (k - |q.reaped|), q.n)
  }

  /** The drive's next completion never lands on an entry the host has yet to read. */
  lemma UnreadEntryNeverOverwritten(q: Q, t: nat)
    requires Reachable(q) && Enabled(q, Post(t))
    ensures |q.posted| < |q.reaped| + q.n
    ensures forall k :: |q.reaped| <= k < |q.posted| ==> Entry(q, k) != q.cqTail
  {
    ReachableInv(q);
    CompletionRingHasRoom(q, t);
  }

  /** A slot has at most one unreaped command, and done_flag is 0 exactly on slots that have one. */
  lemma OneCommandPerSlot(q: Q)
    requires Reachable(q)
    ensures forall c :: 0 <= c < q.n ==>
      (q.done[c] == 0 <==> exists t :: 0 <= t < |q.sent| && q.sent[t].cid == c && q.stage[t] != Reaped)
    ensures forall s, t :: 0 <= s < t < |q.sent| && q.stage[s] != Reaped && q.stage[t] != Reaped ==>
      q.sent[s].cid != q.sent[t].cid
  {
    ReachableInv(q);
  }

  /** Unreaped commands take the places of their slots, reaped ones places of their own after them. */
  ghost function Place(q: Q, t: nat): (k: nat)
    requires Shape(q) && Stages(q) && t < |q.sent|
    ensures k < q.n + |q.reaped|
    ensures if q.stage[t] == Reaped then q.n <= k && q.reaped[k - q.n] == t else k == q.sent[t].cid
  {
    if q.stage[t] != Reaped then q.sent[t].cid
    else
      assert t in q.reaped by {
        var k :| 0 <= k < |q.posted| && q.posted[k] == t;
        assert k < |q.reaped|;
      }
      var k :| 0 <= k < |q.reaped| && q.reaped[k] == t;
      q.n + k
  }

  lemma PlacesDiffer(q: Q, s: nat, t: nat)
    requires Shape(q) && Stages(q) && Slots(q) && s < t < |q.sent|
    ensures Place(q, s) != Place(q, t)
  {
  }

  lemma UnreapedBound(q: Q)
    requires Shape(q) && Stages(q) && Slots(q)
    ensures |q.sent| - |q.reaped| <= q.n
  {
    var places := seq(|q.sent|, t requires 0 <= t < |q.sent| => Place(q, t));
    forall s, t | 0 <= s < t < |places| ensures places[s] != places[t] {
      PlacesDiffer(q, s, t);
    }
    Pigeonhole(places, q.n + |q.reaped|);
  }

  /** At most n commands are submitted and not yet reaped. */
  lemma OutstandingBound(q: Q)
    requires Reachable(q)
    ensures |q.sent| - |q.reaped| <= q.n
  {
    ReachableInv(q);
    UnreapedBound(q);
  }

  /**
   nvme_check answers 1 for a request only after that request has completed, and then the
   destination of a read holds the bytes the drive returned for it.  The slot may have been
   reused and finished again in the meantime.
  */
  lemma CheckSound(q: Q, t: nat)
    requires Reachable(q) && t < |q.sent| && q.done[q.sent[t].cid] == 1
    ensures q.stage[t] == Reaped && t in q.reaped
    ensures !q.sent[t].write ==>
      t in q.mem && t < |q.io| && |q.io[t]| == q.sent[t].nblk * SECTOR && q.mem[t] == q.io[t][..q.sent[t].len]
    ensures q.sent[t].write ==> t < |q.io| && q.sent[t].len <= |q.io[t]| && q.io[t][..q.sent[t].len] == q.sent[t].data
  {
    ReachableInv(q);
    CompletionsConsumedOnceInOrder(q);
    assert t < |q.io| ==> Transferred(q.sent[t], q.io[t]);
  }

  /** Until its slot is taken again, a completed request keeps answering 1. */
  lemma CheckComplete(q: Q, t: nat)
    requires Reachable(q) && t < |q.sent| && q.stage[t] == Reaped && q.done[q.sent[t].cid] != 0
    ensures q.done[q.sent[t].cid] == 1
  {
    ReachableInv(q);
  }

  /** Request t is the last one submitted in slot c. */
  predicate Newest(q: Q, c: nat, t: nat) {
    t < |q.sent| && q.sent[t].cid == c && forall s :: t < s < |q.sent| ==> q.sent[s].cid != c
  }

  /** The owner recorded for a slot is no older than any of its commands. */
  predicate Owners(q: Q) {
    forall t :: 0 <= t < |q.sent| && q.sent[t].cid < |q.owner| ==> t <= q.owner[q.sent[t].cid]
  }

  lemma OwnersStep(q: Q, e: Event)
    requires Enabled(q, e) && Owners(q)
    ensures Owners(Step(q, e))
  {
  }

  lemma {:induction false} OwnersRun(q: Q, es: seq<Event>)
    requires Owners(q) && Exec(q, es).Some?
    ensures Owners(Exec(q, es).value)
  {
    if es != [] {
      var k := |es| - 1;
      OwnersRun(q, es[..k]);
      OwnersStep(Exec(q, es[..k]).value, es[k]);
    }
  }

  lemma ReachableOwners(q: Q)
    requires Reachable(q)
    ensures Owners(q)
  {
    var n: nat, es :| 0 < n && Exec(Init(n), es) == Some(q);
    OwnersRun(Init(n), es);
  }

  lemma OwnerIsNewest(q: Q, c: nat, t: nat)
    requires Shape(q) && Slots(q) && Owners(q) && Newest(q, c, t)
    ensures c < q.n && (q.done[c] == 1 <==> q.stage[t] == Reaped)
  {
    assert q.sent[t].cid == c;
    if q.done[c] == 0 {
      assert q.owner[c] == t;
    }
  }

  /** The flag of a slot is 1 exactly when the last request submitted in it has been reaped. */
  lemma FlagTellsNewest(q: Q, c: nat, t: nat)
    requires Reachable(q) && Newest(q, c, t)
    ensures c < q.n && (q.done[c] == 1 <==> q.stage[t] == Reaped)
  {
    ReachableInv(q);
    ReachableOwners(q);
    OwnerIsNewest(q, c, t);
  }

  /** With every posted completion consumed, nvme_check answers 1 for a slot whose last request was posted. */
  lemma ConsumedIsDone(q: Q, c: nat, t: nat)
    requires Reachable(q) && Newest(q, c, t) && q.reaped == q.posted && t in q.posted
    ensures c < q.n && q.done[c] == 1
  {
    ReachableInv(q);
    var k :| 0 <= k < |q.posted| && q.posted[k] == t;
    FlagTellsNewest(q, c, t);
  }

  /** Request t has completed; for a read, it has filled its destination. */
  predicate Over(q: Q, t: nat) {
    t < |q.sent| && t < |q.io| && t < |q.stage| && q.stage[t] == Reaped
  }

  lemma OverStays(q: Q, e: Event, t: nat)
    requires Enabled(q, e) && Over(q, t)
    ensures var q' := Step(q, e); Over(q', t) && q'.sent[t] == q.sent[t] && q'.io[t] == q.io[t]
  {
  }

  lemma {:induction false} OverForGood(q: Q, es: seq<Event>, t: nat)
    requires Over(q, t) && Exec(q, es).Some?
    ensures var q' := Exec(q, es).value; Over(q', t) && q'.sent[t] == q.sent[t] && q'.io[t] == q.io[t]
  {
    if es != [] {
      var k := |es| - 1;
      OverForGood(q, es[..k], t);
      OverStays(Exec(q, es[..k]).value, es[k], t);
    }
  }

  /**
   A request once reported done is done for good: whatever host and drive go on to do, even to the
   slot the request had, the destination of a read keeps the bytes the drive returned for it.
  */
  lemma DoneForGood(q: Q, t: nat, es: seq<Event>)
    requires Reachable(q) && t < |q.sent| && q.done[q.sent[t].cid] == 1 && Exec(q, es).Some?
    ensures var q' := Exec(q, es).value;
      && t < |q'.sent| && t < |q'.stage| && q'.stage[t] == Reaped && q'.sent[t] == q.sent[t]
      && (!q.sent[t].write ==> t in q.mem && t in q'.mem && q'.mem[t] == q.mem[t])
  {
    CheckSound(q, t);
    OverForGood(q, es, t);
    ReachableExtends(q, es);
    ReachableInv(Exec(q, es).value);
  }

  /** The slot the drive fetches from holds the oldest command not fetched. */
  lemma FetchedCommand(q: Q)
    requires Reachable(q) && q.sqHead != q.doorbell
    ensures |q.io| < |q.sent| && q.sent[|q.io|].cid == q.sqHead
    ensures var r := q.sent[|q.io|];
      q.sqe[q.sqHead] == Sqe(q.sqHead, r.write, r.slba, r.nblk) && (r.write ==> q.bounce[q.sqHead][..r.len] == r.data)
  {
    ReachableInv(q);
    FetchTakesOldest(q);
    assert SlotHolds(q, |q.io|);
  }

  // ---------------------------------------------------------------- ring fullness

  /** Nobody but a caller with a new request can act. */
  ghost predicate Quiet(q: Q) {
    forall e :: Enabled(q, e) ==> e.Submit?
  }

  /**
   While commands are outstanding, drive and poller can make progress exactly unless all n slots
   hold commands the drive has not fetched: the doorbell then equals the drive's head, which
   reads as an empty ring.
  */
  lemma StuckExactlyWhenRingFull(q: Q)
    requires Reachable(q) && |q.reaped| < |q.sent|
    ensures Quiet(q) <==> |q.sent| - |q.io| == q.n
  {
    ReachableInv(q);
    if |q.sent| - |q.io| == q.n {
      FullRingIsQuiet(q);
    } else if |q.io| < |q.sent| {
      FetchPossible(q);
    } else {
      CompletionPossible(q);
    }
  }

  lemma FullRingIsQuiet(q: Q)
    requires Inv(q) && |q.sent| - |q.io| == q.n
    ensures Quiet(q)
  {
    forall t | 0 <= t < |q.sent| ensures q.stage[t] in {Queued, Reaped} {
      FullRingHoldsEverySlot(q, q.sent[t].cid);
    }
    PhaseTellsUnread(q);
  }

  lemma FetchPossible(q: Q)
    requires Shape(q) && SubmissionRing(q) && |q.io| < |q.sent| && |q.sent| - |q.io| < q.n
    ensures !Quiet(q)
  {
    var nblk := q.sqe[q.sqHead].nblk;
    var e := Fetch(q.bounce[q.sqHead][..nblk * SECTOR]);
    assert q.sqHead != q.doorbell;
    assert Enabled(q, e) && !e.Submit?;
  }

  lemma CompletionPossible(q: Q)
    requires Inv(q) && |q.reaped| < |q.sent| == |q.io|
    ensures !Quiet(q)
  {
    var t := SomeUnreaped(q);
    if q.stage[t] == InFlight {
      assert Enabled(q, Post(t));
    } else {
      var k :| 0 <= k < |q.posted| && q.posted[k] == t;
      PhaseTellsUnread(q);
      assert Enabled(q, Reap);
    }
  }

  lemma FullRingHoldsEverySlot(q: Q, c: nat)
    requires Inv(q) && |q.sent| - |q.io| == q.n && c < q.n
    ensures |q.io| <= q.owner[c] < |q.sent| && q.done[c] == 0
  {
    var t := if c < q.sqHead then |q.io| + c - q.sqHead + q.n else |q.io| + c - q.sqHead;
    assert q.sent[t].cid == c && q.stage[t] == Queued;
  }

  lemma SomeUnreaped(q: Q) returns (t: nat)
    requires Inv(q) && |q.reaped| < |q.sent|
    ensures t < |q.sent| && q.stage[t] != Reaped
  {
    if t' :| 0 <= t' < |q.sent| && q.stage[t'] != Reaped {
      t := t';
    } else {
      var places := seq(|q.sent|, t requires 0 <= t < |q.sent| => Place(q, t) - q.n);
      forall i, j | 0 <= i < j < |places| ensures places[i] != places[j] {
        PlacesDiffer(q, i, j);
      }
      Pigeonhole(places, |q.reaped|);
      assert false;
    }
  }

  /** Transfers, postings and reapings still to come for the commands submitted. */
  function ToDo(q: Q): int {
    3 * |q.sent| - |q.io| - |q.posted| - |q.reaped|
  }

  lemma ToDoNotNegative(q: Q)
    requires Shape(q) && Stages(q)
    ensures |q.reaped| <= |q.posted| <= |q.sent| && 0 <= ToDo(q)
  {
    Pigeonhole(q.posted, |q.sent|);
  }

  /** An event of drive or poller, while one is due. */
  lemma SomeProgress(q: Q) returns (e: Event)
    requires Reachable(q) && |q.reaped| < |q.sent| && |q.sent| - |q.io| < q.n
    ensures Enabled(q, e) && !e.Submit?
  {
    StuckExactlyWhenRingFull(q);
    e :| Enabled(q, e) && !e.Submit?;
  }

  lemma ProgressCounts(q: Q, e: Event)
    requires Enabled(q, e) && !e.Submit?
    ensures var q' := Step(q, e); q'.n == q.n && q'.sent == q.sent && |q.io| <= |q'.io| && ToDo(q') == ToDo(q) - 1
  {
  }

  /** Unless the ring is full, drive and poller can bring every outstanding command to completion. */
  lemma {:induction false} DrainsUnlessFull(q: Q) returns (es: seq<Event>)
    requires Reachable(q) && |q.sent| - |q.io| < q.n
    ensures Exec(q, es).Some? && Exec(q, es).value.sent == q.sent && |Exec(q, es).value.reaped| == |q.sent|
    decreases ToDo(q)
  {
    ReachableInv(q);
    ToDoNotNegative(q);
    if |q.reaped| == |q.sent| {
      es := [];
    } else {
      var e := SomeProgress(q);
      ReachableStep(q, e);
      ProgressCounts(q, e);
      var rest := DrainsUnlessFull(Step(q, e));
      ExecAppend(q, [e], rest);
      es := [e] + rest;
    }
  }

  predicate NoSubmits(es: seq<Event>) {
    forall i :: 0 <= i < |es| ==> !es[i].Submit?
  }

  /** Every event of drive or poller does one of the things left to do. */
  lemma {:induction false} ServiceCounts(q: Q, es: seq<Event>)
    requires Exec(q, es).Some? && NoSubmits(es)
    ensures var q' := Exec(q, es).value;
      q'.n == q.n && q'.sent == q.sent && |q.io| <= |q'.io| && |es| + ToDo(q') == ToDo(q)
  {
    if es != [] {
      var k := |es| - 1;
      ServiceCounts(q, es[..k]);
      ProgressCounts(Exec(q, es[..k]).value, es[k]);
    }
  }

  lemma DrainedIsQuiet(q: Q)
    requires Inv(q) && |q.reaped| == |q.sent|
    ensures Quiet(q)
  {
    AllReaped(q);
    ToDoNotNegative(q);
    PhaseTellsUnread(q);
    if q.sent != [] {
      assert q.stage[|q.sent| - 1] == Reaped;
    }
  }

  /**
   Unless the ring is full, however drive and poller go on they finish: no run of theirs is longer
   than the things left to do, and one that cannot be continued has reaped every command.
  */
  lemma EveryRunDrains(q: Q, es: seq<Event>)
    requires Reachable(q) && |q.sent| - |q.io| < q.n && Exec(q, es).Some? && NoSubmits(es)
    ensures |es| <= ToDo(q)
    ensures var q' := Exec(q, es).value; q'.sent == q.sent && (Quiet(q') <==> |q'.reaped| == |q'.sent|)
  {
    ServiceCounts(q, es);
    ReachableExtends(q, es);
    var q' := Exec(q, es).value;
    ReachableInv(q');
    ToDoNotNegative(q');
    if |q'.reaped| == |q'.sent| {
      DrainedIsQuiet(q');
    } else {
      StuckExactlyWhenRingFull(q');
    }
  }

  /** When every command is reaped, nvme_check answers 1 for each of them. */
  lemma DrainedIsDone(q: Q, t: nat)
    requires Reachable(q) && |q.reaped| == |q.sent| && t < |q.sent|
    ensures q.done[q.sent[t].cid] == 1
  {
    ReachableInv(q);
    AllReaped(q);
  }

  lemma AllReaped(q: Q)
    requires Shape(q) && Stages(q) && |q.reaped| == |q.sent|
    ensures forall t :: 0 <= t < |q.sent| ==> q.stage[t] == Reaped
  {
    Covering(q.reaped, |q.sent|);
    forall t: nat | t < |q.sent| ensures q.stage[t] == Reaped {
      assert t in q.reaped;
      var k :| 0 <= k < |q.reaped| && q.reaped[k] == t;
      assert q.posted[k] == t;
    }
  }

  /** n submissions that the drive has not begun to fetch leave every event disabled. */
  lemma FullRingDeadlocks(n: nat) returns (q: Q)
    requires 0 < n
    ensures Reachable(q) && q.n == n && |q.sent| == n
    ensures forall e :: !Enabled(q, e)
  {
    q := Init(n);
    var es := [];
    InitInv(n);
    while |es| < n
      invariant Filling(n, es, q)
    {
      es, q := FillOne(n, es, q);
    }
    assert Reachable(q);
    StuckExactlyWhenRingFull(q);
    FullRingHoldsEverySlot(q, q.sqTail);
  }

  /** The events es are so many submissions from the start, which the drive has not begun to fetch. */
  ghost predicate Filling(n: nat, es: seq<Event>, q: Q) {
    && |es| <= n && Exec(Init(n), es) == Some(q) && Inv(q)
    && q.n == n && |q.sent| == |es| && q.io == [] && q.reaped == [] && q.sqHead == 0
    && forall c :: |es| <= c < n ==> q.done[c] != 0
  }

  lemma FillOne(n: nat, es: seq<Event>, q: Q) returns (es': seq<Event>, q': Q)
    requires Filling(n, es, q) && |es| < n
    ensures |es'| == |es| + 1 && Filling(n, es', q')
  {
    var e := Submit(false, 0, 1, 0, []);
    assert q.sqTail == |es|;
    StepKeeps(q, e);
    es', q' := es + [e], Step(q, e);
    assert es'[..|es|] == es;
  }
}
