/**
 The methods of class QP in mylib/nvme.cc, in the order they touch memory.

 Bounce memory is kept as the code keeps it, in 2 MB pages; the machine in QueuePair sees the slots
 cut out of them.  `env` arguments say what the drive does between the host's looks at shared
 memory; they stand for an arbitrary interleaving.  Every method is proved to be a run of the
 machine, so all results about runs hold after any sequence of calls.  A polling loop that has not
 succeeded when `env` ends returns false: the caller is still spinning.
*/
module QueuePairDriver {
  import opened Prelude
  import opened Addressing
  import opened Counting
  import opened Bounce
  import opened QueuePair
  import opened QueuePairRuns

  /** The drive's own registers. */
  datatype Registers = Registers(sqHead: nat, cqTail: nat, devPhase: bool)

  /** History, as in QueuePair. */
  datatype Log = Log(sent: seq<Req>, stage: seq<Stage>, owner: seq<nat>, io: seq<seq<Byte>>, posted: seq<nat>,
    reaped: seq<nat>)

  class QP {
    const n: nat
    var sqTail: nat
    var cqHead: nat
    var cqPhase: bool
    var done: seq<int>
    var rbuf: seq<Option<nat>>
    var len: seq<nat>
    var sqe: seq<Sqe>
    var pages: Pages
    var cq: seq<Cqe>
    var doorbell: nat
    var mem: map<nat, seq<Byte>>
    var drive: Registers
    var log: Log

    function View(): Q
      reads this
    {
      Q(n, sqTail, cqHead, cqPhase, done, rbuf, len, sqe, SlotsOf(pages, n), cq, doorbell,
        drive.sqHead, drive.cqTail, drive.devPhase,
        log.sent, log.stage, log.owner, log.io, log.posted, log.reaped, mem)
    }

    /** The bounce memory is large enough for its slots. */
    predicate Laid()
      reads `pages
    {
      FitsPages(n) && Sized(pages, n)
    }

    ghost predicate Valid()
      reads this
    {
      Laid() && Reachable(View())
    }

    /**
     The constructor; the memory of fresh pages is zero.  The object is usable if and only if every slot
     lies inside its page, which is a matter of the depth alone.
    */
    constructor (depth: nat)
      requires 0 < depth
      ensures n == depth && (FitsPages(depth) <==> Valid()) && (Valid() ==> View() == Init(depth))
      ensures Valid() <==> forall cid: nat :: cid < depth ==> BounceOffset(cid, depth) + UNIT <= BLOCK_SIZE
    {
      n := depth;
      sqTail, cqHead, cqPhase := 0, 0, true;
      done := seq(depth, _ => 2);
      rbuf, len := seq(depth, _ => None), seq(depth, _ => 0);
      sqe := seq(depth, i requires 0 <= i < depth => Sqe(i, false, 0, 1));
      pages := ZeroPages(depth);
      cq := seq(depth, _ => Cqe(0, false));
      doorbell, mem := 0, map[];
      drive := Registers(0, 0, true);
      log := Log([], [], seq(depth, _ => 0), [], [], []);
      new;
      BounceSlotsFitPages(depth);
      if FitsPages(depth) {
        ZeroSlots(depth);
        assert View().bounce == Init(depth).bounce;
        assert Exec(Init(depth), []) == Some(Init(depth));
      }
    }

    /** The drive takes the next command and moves its data. */
    method DriveFetch(payload: seq<Byte>)
      requires Laid() && drive.sqHead < n && drive.sqHead < |sqe| == n && |payload| <= SLOT && |log.io| < |log.stage|
      modifies `pages, `drive, `log
      ensures Laid() && |SlotsOf(old(pages), n)[old(drive.sqHead)]| == SLOT && View() == FetchStep(old(View()), payload)
    {
      var c := drive.sqHead;
      StoredIsUpdate(pages, c, n, payload);
      if !sqe[c].write {
        pages := Stored(pages, c, n, payload);
      }
      drive := drive.(sqHead := if c + 1 == n then 0 else c + 1);
      log := log.(io := log.io + [payload], stage := log.stage[|log.io| := InFlight]);
    }

    /** The drive announces a completion. */
    method DrivePost(t: nat)
      requires drive.cqTail < |cq| && t < |log.sent| == |log.stage|
      modifies `cq, `drive, `log
      ensures View() == PostStep(old(View()), t)
    {
      var tail, last := drive.cqTail, drive.cqTail + 1 == n;
      cq := cq[tail := Cqe(log.sent[t].cid, drive.devPhase)];
      drive := drive.(cqTail := if last then 0 else tail + 1,
        devPhase := if last then !drive.devPhase else drive.devPhase);
      log := log.(stage := log.stage[t := Posted], posted := log.posted + [t]);
    }

    /** One action of the drive. */
    method DriveStep(e: Event)
      requires Laid() && Enabled(View(), e) && (e.Fetch? || e.Post?)
      modifies `pages, `cq, `drive, `log
      ensures Laid() && View() == Step(old(View()), e)
    {
      match e {
        case Fetch(payload) => DriveFetch(payload);
        case Post(t) => DrivePost(t);
      }
    }

    /** The drive does what it can of `es`; the host's own events are not its to do. */
    method DriveTurn(es: seq<Event>) returns (ghost trace: seq<Event>)
      requires Valid()
      modifies this
      ensures Valid() && Exec(old(View()), trace) == Some(View()) && View() == Driven(old(View()), es)
      ensures log.sent == old(log.sent) && done == old(done) && log.reaped == old(log.reaped) && sqTail == old(sqTail)
      ensures old(log.posted) <= log.posted
    {
      trace := [];
      for i := 0 to |es|
        invariant Valid() && Exec(old(View()), trace) == Some(View()) && View() == Driven(old(View()), es[..i])
        invariant log.sent == old(log.sent) && done == old(done) && log.reaped == old(log.reaped)
        invariant sqTail == old(sqTail) && old(log.posted) <= log.posted
      {
        DrivenNext(old(View()), es, i);
        if (es[i].Fetch? || es[i].Post?) && Enabled(View(), es[i]) {
          ExtendRun(old(View()), trace, View(), es[i]);
          trace := trace + [es[i]];
          DriveStep(es[i]);
        }
      }
      assert es[..|es|] == es;
    }

    /** The stores of one turn of the loop of check_cq: copy out a read, release the slot, advance the head. */
    method Consume()
      requires cqHead < |cq| && cq[cqHead].cid < |done| == |rbuf| == |len| == |log.owner| && cq[cqHead].cid < n
      requires len[cq[cqHead].cid] <= |Slot(pages, cq[cqHead].cid, n)|
      modifies `mem, `done, `cqHead, `cqPhase, `log
      ensures var c := old(cq[cqHead].cid);
        && mem == (if rbuf[c].Some? then old(mem)[rbuf[c].value := Slot(pages, c, n)[..len[c]]] else old(mem))
        && done == old(done)[c := 1]
        && log == Reaping(old(log), old(log).owner[c])
      ensures cqHead == if old(cqHead) + 1 == n then 0 else old(cqHead) + 1
      ensures cqPhase == if old(cqHead) + 1 == n then !old(cqPhase) else old(cqPhase)
    {
      var cid := cq[cqHead].cid;
      if rbuf[cid].Some? {
        mem := mem[rbuf[cid].value := Slot(pages, cid, n)[..len[cid]]];
      }
      done := done[cid := 1];
      cqHead := cqHead + 1;
      if cqHead == n {
        cqHead, cqPhase := 0, !cqPhase;
      }
      log := Reaping(log, log.owner[cid]);
    }

    /** One turn of the loop of check_cq is the machine's Reap. */
    method ReapOne()
      requires cqHead < |cq| && cq[cqHead].cid < |done| == |rbuf| == |len| == |log.owner| == n
      requires len[cq[cqHead].cid] <= |SlotsOf(pages, n)[cq[cqHead].cid]|
      modifies `mem, `done, `cqHead, `cqPhase, `log
      ensures View() == ReapStep(old(View()))
    {
      Consume();
    }

    /** One turn of the loop of check_cq and what the drive does until the next look at the ring. */
    method PollTurn(es: seq<Event>) returns (ghost trace: seq<Event>)
      requires Valid() && Shape(View()) && cq[cqHead].p == cqPhase
      modifies this
      ensures Valid() && Exec(old(View()), trace) == Some(View())
      ensures log.sent == old(log.sent) && |log.reaped| == |old(log.reaped)| + 1
      ensures sqTail == old(sqTail) && old(log.posted) <= log.posted
    {
      ghost var start := View();
      ReachableStep(start, Reap);
      ReapOne();
      trace := DriveTurn(es);
      ExecAppend(start, [Reap], trace);
      trace := [Reap] + trace;
    }

    /** check_cq: consume completions until the phase bit says there is none. */
    method CheckCq(env: seq<seq<Event>>) returns (ghost trace: seq<Event>)
      requires Valid()
      modifies this
      ensures Valid() && Exec(old(View()), trace) == Some(View())
      ensures log.sent == old(log.sent) && sqTail == old(sqTail)
      ensures Looked(old(View()), First(env), View()) && old(log.posted) <= log.posted
    {
      trace := DriveTurn(First(env));
      ReapedAtMostSent(View());
      var i := 1;
      while cq[cqHead].p == cqPhase
        invariant Valid() && Exec(old(View()), trace) == Some(View()) && Shape(View())
        invariant log.sent == old(log.sent) && |log.reaped| <= |log.sent| && sqTail == old(sqTail)
        invariant Driven(old(View()), First(env)).posted <= log.posted
        decreases |log.sent| - |log.reaped|
      {
        ghost var more := PollTurn(if i < |env| then env[i] else []);
        ExecAppend(old(View()), trace, more);
        trace := trace + more;
        i := i + 1;
        ReapedAtMostSent(View());
      }
      NothingUnread(View());
      DrivenPosts(old(View()), First(env));
    }

    /**
     The polling loop of new_sqe: true once the slot at the tail is no longer in use.  A free slot is
     taken without a look at the ring, and one whose last command has been posted by the time of the
     first look is free after it; a caller still waiting has consumed every completion posted.
    */
    method AwaitSlot(env: seq<seq<seq<Event>>>) returns (ready: bool, ghost trace: seq<Event>)
      requires Valid()
      modifies this
      ensures Valid() && Exec(old(View()), trace) == Some(View())
      ensures log.sent == old(log.sent) && sqTail == old(sqTail)
      ensures Shape(View()) && (ready <==> done[sqTail] != 0)
      ensures old(done)[sqTail] != 0 ==> ready && View() == old(View())
      ensures |env| > 0 && PostedIn(Driven(old(View()), First(env[0])), sqTail) ==> ready
      ensures !ready && |env| > 0 ==> log.reaped == log.posted
    {
      trace := [];
      ReachableInv(View());
      var i := 0;
      while done[sqTail] == 0 && i < |env|
        invariant Valid() && Exec(old(View()), trace) == Some(View()) && Shape(View())
        invariant log.sent == old(log.sent) && sqTail == old(sqTail) && i <= |env|
        invariant if i == 0 then View() == old(View()) else Looked(old(View()), First(env[0]), View())
        invariant i > 0 ==> old(done)[sqTail] == 0
        decreases |env| - i
      {
        trace := AwaitTurn(env[i], old(View()), trace);
        i := i + 1;
      }
      ready := done[sqTail] != 0;
      if i > 0 {
        SlotIsDone(old(View()), First(env[0]), View());
      }
    }

    /** One turn of that loop. */
    method AwaitTurn(env: seq<seq<Event>>, ghost start: Q, ghost before: seq<Event>) returns (ghost trace: seq<Event>)
      requires Valid() && Exec(start, before) == Some(View())
      modifies this
      ensures Valid() && Exec(start, trace) == Some(View()) && Shape(View())
      ensures log.sent == old(log.sent) && sqTail == old(sqTail)
      ensures Looked(old(View()), First(env), View())
      ensures forall es :: Looked(start, es, old(View())) ==> Looked(start, es, View())
    {
      trace := CheckCq(env);
      ExecAppend(start, before, trace);
      trace := before + trace;
      ReachableInv(View());
    }

    /** The stores of a request: new_sqe from the point where the slot is free, the caller's, and sq_doorbell. */
    method Store(write: bool, slba: nat, nblk: nat, count: nat, data: seq<Byte>) returns (cid: nat)
      requires Laid() && sqTail < |done| == |rbuf| == |len| == |sqe| == |log.owner| == n && |data| <= SLOT
      modifies `sqTail, `done, `rbuf, `len, `sqe, `pages, `doorbell, `log
      ensures cid == old(sqTail)
      ensures pages == if write then Stored(old(pages), cid, n, data) else old(pages)
      ensures sqTail == doorbell == if cid + 1 == n then 0 else cid + 1
      ensures done == old(done)[cid := 0]
      ensures sqe == old(sqe)[cid := Sqe(cid, write, slba, nblk)]
      ensures rbuf == old(rbuf)[cid := if write then None else Some(|old(log).sent|)]
      ensures len == old(len)[cid := if write then 0 else count]
      ensures log == Sending(old(log), Req(cid, write, slba, nblk, count, data))
    {
      cid := sqTail;
      done := done[cid := 0];
      sqTail := if sqTail + 1 == n then 0 else sqTail + 1;
      if write {
        pages := Stored(pages, cid, n, data);
      }
      sqe := sqe[cid := Sqe(cid, write, slba, nblk)];
      rbuf := rbuf[cid := if write then None else Some(|log.sent|)];
      len := len[cid := if write then 0 else count];
      log := Sending(log, Req(cid, write, slba, nblk, count, data));
      doorbell := sqTail;
    }

    /** The stores of a request are the machine's Submit. */
    method Fill(write: bool, slba: nat, nblk: nat, count: nat, data: seq<Byte>) returns (cid: nat)
      requires Laid() && sqTail < |done| == |rbuf| == |len| == |sqe| == |log.owner| == n
      requires count <= SLOT && |data| == (if write then count else 0)
      modifies `sqTail, `done, `rbuf, `len, `sqe, `pages, `doorbell, `log
      ensures Laid() && cid == old(sqTail) && |SlotsOf(old(pages), n)[cid]| == SLOT
      ensures View() == SubmitStep(old(View()), write, slba, nblk, count, data)
    {
      StoredIsUpdate(pages, sqTail, n, data);
      cid := Store(write, slba, nblk, count, data);
    }

    /** nvme_read_req and nvme_write_req on their queue: take a slot, fill it, ring the doorbell. */
    method Request(write: bool, slba: nat, nblk: nat, count: nat, data: seq<Byte>, env: seq<seq<seq<Event>>>)
      returns (ok: bool, cid: nat, ghost trace: seq<Event>)
      requires Valid() && GoodReq(Req(0, write, slba, nblk, count, data))
      modifies this
      ensures Valid() && Exec(old(View()), trace) == Some(View())
      ensures log.sent == old(log.sent) + if ok then [Req(cid, write, slba, nblk, count, data)] else []
      ensures Shape(View()) && (ok ==> cid < n && done[cid] == 0 && log.owner[cid] == |old(log.sent)|)
      // no unreaped command had the slot
      ensures ok ==> cid == old(sqTail)
      ensures ok ==> forall t :: 0 <= t < |old(log.sent)| && log.sent[t].cid == cid ==> log.stage[t] == Reaped
      // a slot that is free, or has its last command posted when first looked at, is not waited for
      ensures old(done)[old(sqTail)] != 0 ==>
        ok && View() == SubmitStep(old(View()), write, slba, nblk, count, data)
      ensures |env| > 0 && PostedIn(Driven(old(View()), First(env[0])), old(sqTail)) ==> ok
    {
      ok, trace := AwaitSlot(env);
      cid := 0;
      if ok {
        SlotWasFree(View());
        ghost var e := Submit(write, slba, nblk, count, data);
        ExtendRun(old(View()), trace, View(), e);
        trace := trace + [e];
        cid := Fill(write, slba, nblk, count, data);
      }
    }

    /** Every request submitted in the slot at the tail has been reaped. */
    predicate TailFree()
      reads this
    {
      forall t :: 0 <= t < |log.sent| && t < |log.stage| && log.sent[t].cid == sqTail ==> log.stage[t] == Reaped
    }

    /** Or the last one has been announced when the ring is first looked at. */
    ghost predicate TailPosted(env: seq<seq<seq<Event>>>)
      reads this
    {
      |env| > 0 && PostedIn(Driven(View(), First(env[0])), sqTail)
    }

    lemma FreeTail()
      requires Valid() && TailFree()
      ensures sqTail < |done| && done[sqTail] != 0
    {
      OneCommandPerSlot(View());
    }

    /** The same for a caller who knows the queue by its requests. */
    method Submitting(write: bool, slba: nat, nblk: nat, count: nat, data: seq<Byte>, env: seq<seq<seq<Event>>>)
      returns (ok: bool, cid: nat)
      requires Valid() && GoodReq(Req(0, write, slba, nblk, count, data))
      modifies this
      ensures Valid() && (ok ==> cid < n)
      ensures log.sent == old(log.sent) + if ok then [Req(cid, write, slba, nblk, count, data)] else []
      ensures old(TailFree() || TailPosted(env)) ==> ok
    {
      if TailFree() {
        FreeTail();
      }
      ghost var trace;
      ok, cid, trace := Request(write, slba, nblk, count, data, env);
    }

    /** nvme_check on a slot of this queue. */
    method Check(cid: nat, env: seq<seq<Event>>) returns (r: bool, ghost trace: seq<Event>)
      requires Valid() && cid < n
      modifies this
      ensures Valid() && Exec(old(View()), trace) == Some(View())
      ensures log.sent == old(log.sent) && Shape(View())
      ensures r <==> done[cid] == 1
      ensures r ==> forall t :: 0 <= t < |log.sent| && log.sent[t].cid == cid ==>
        log.stage[t] == Reaped && Answered(View(), t)
      // a completion announced by the time the ring is looked at is seen, and a 0 means that all were
      ensures PostedIn(Driven(old(View()), First(env)), cid) ==> r
      ensures !r ==> log.reaped == log.posted
    {
      trace := [];
      ReachableInv(View());
      if done[cid] == 1 {
        r := true;
      } else {
        trace := CheckCq(env);
        ReachableInv(View());
        r := done[cid] == 1;
        SlotIsDone(old(View()), First(env), View());
      }
      if r {
        forall t | 0 <= t < |log.sent| && log.sent[t].cid == cid ensures log.stage[t] == Reaped && Answered(View(), t) {
          CheckSound(View(), t);
        }
      }
    }
  }

  /** What the drive makes of `es`: the host's events are not its to do, nor what it cannot do at the moment. */
  function Driven(q: Q, es: seq<Event>): Q {
    if es == [] then q
    else
      var k := |es| - 1;
      var p := Driven(q, es[..k]);
      if (es[k].Fetch? || es[k].Post?) && Enabled(p, es[k]) then Step(p, es[k]) else p
  }

  lemma DrivenNext(q: Q, es: seq<Event>, i: nat)
    requires i < |es|
    ensures var p := Driven(q, es[..i]);
      Driven(q, es[..i + 1]) == if (es[i].Fetch? || es[i].Post?) && Enabled(p, es[i]) then Step(p, es[i]) else p
  {
    assert es[..i + 1][..i] == es[..i];
  }

  /** The drive announces completions and takes none back. */
  lemma {:induction false} DrivenPosts(q: Q, es: seq<Event>)
    ensures var p := Driven(q, es); q.posted <= p.posted && p.sent == q.sent
  {
    if es != [] {
      DrivenPosts(q, es[..|es| - 1]);
    }
  }

  function First(env: seq<seq<Event>>): seq<Event> {
    if |env| > 0 then env[0] else []
  }

  /** Since `start` the completions the drive had posted after `es`, and all others posted by now, were consumed. */
  predicate Looked(start: Q, es: seq<Event>, q: Q) {
    q.reaped == q.posted && Driven(start, es).posted <= q.posted
  }

  /** The last request submitted in slot c has been posted. */
  ghost predicate PostedIn(q: Q, c: nat) {
    exists t :: Newest(q, c, t) && t in q.posted
  }

  /** Where it had been when the ring was looked at, and the ring is consumed, nvme_check answers 1 for the slot. */
  lemma SlotIsDone(start: Q, es: seq<Event>, q: Q)
    requires Reachable(q) && q.sent == start.sent && Looked(start, es, q)
    ensures Shape(q) && forall c: nat :: PostedIn(Driven(start, es), c) ==> c < q.n && q.done[c] == 1
  {
    var p := Driven(start, es);
    DrivenPosts(start, es);
    forall c: nat | PostedIn(p, c) ensures c < q.n && q.done[c] == 1 {
      var t :| Newest(p, c, t) && t in p.posted;
      assert Newest(q, c, t) && t in q.posted;
      ConsumedIsDone(q, c, t);
    }
  }

  /** A write has reached the drive with its caller's bytes; a read's destination holds the drive's answer. */
  predicate Answered(q: Q, t: nat)
    requires Shape(q) && t < |q.sent|
  {
    && t < |q.io| && q.sent[t].len <= |q.io[t]|
    && (if q.sent[t].write then q.io[t][..q.sent[t].len] == q.sent[t].data
        else t in q.mem && q.mem[t] == q.io[t][..q.sent[t].len])
  }

  /** History of a submission and of a reaping. */
  function Sending(log: Log, r: Req): Log
    requires r.cid < |log.owner|
  {
    log.(sent := log.sent + [r], stage := log.stage + [Queued], owner := log.owner[r.cid := |log.sent|])
  }

  function Reaping(log: Log, t: nat): Log {
    log.(stage := if t < |log.stage| then log.stage[t := Reaped] else log.stage, reaped := log.reaped + [t])
  }

  function ZeroPages(depth: nat): Pages {
    seq(PageCount(depth), _ => seq(BLOCK_SIZE, _ => 0))
  }

  lemma ZeroSlots(depth: nat)
    requires FitsPages(depth)
    ensures Sized(ZeroPages(depth), depth)
    ensures SlotsOf(ZeroPages(depth), depth) == seq(depth, _ => seq(SLOT, _ => 0))
  {
    var pages := ZeroPages(depth);
    forall c | 0 <= c < depth ensures Slot(pages, c, depth) == seq(SLOT, _ => 0) {
      SlotInside(pages, c, depth);
    }
  }

  lemma ExtendRun(start: Q, trace: seq<Event>, q: Q, e: Event)
    requires Reachable(q) && Exec(start, trace) == Some(q) && Enabled(q, e)
    ensures Reachable(Step(q, e)) && Exec(start, trace + [e]) == Some(Step(q, e))
  {
    ReachableStep(q, e);
    ExecAppend(start, trace, [e]);
  }

  lemma SlotWasFree(q: Q)
    requires Reachable(q) && Shape(q) && q.done[q.sqTail] != 0
    ensures forall t :: 0 <= t < |q.sent| && q.sent[t].cid == q.sqTail ==> q.stage[t] == Reaped
  {
    ReachableInv(q);
    SubmitSlotIsFree(q);
  }

  lemma ReapedAtMostSent(q: Q)
    requires Reachable(q)
    ensures Shape(q) && |q.reaped| <= |q.sent|
  {
    ReachableInv(q);
    Pigeonhole(q.reaped, |q.sent|);
  }

  lemma NothingUnread(q: Q)
    requires Reachable(q) && Shape(q) && q.cq[q.cqHead].p != q.cqPhase
    ensures q.reaped == q.posted
  {
    ReachableInv(q);
    PhaseTellsUnread(q);
  }
}
