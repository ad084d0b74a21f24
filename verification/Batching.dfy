/**
 The io_uring batching of blklib/hook.c (__io_uring_bottom) on one core.  Threads of a core are
 scheduled cooperatively, so everything between two yields is one step.  A request is prepared in
 the ring, and some thread of the core has to submit the ring later; submit_cnt, which wraps at
 65536, tells a waiting thread that somebody did.

 Requests are numbered in the order they are prepared.  The kernel takes them in that order, all that
 the ring holds at a time: those below `handed` are with the kernel, those from there up to
 `prepared` are still in the ring.  `calls` counts the calls of iouring_enter, and `since` in a waiting
 thread is what that count was when it prepared its request; no step decides anything by the two.
*/
module Batching {
  import opened Prelude

  const TH1 := 8
  const TH2 := 1
  const WRAP := 65536

  datatype Ult =
    | Idle
    | Waiting(req: nat, seen: nat, turns: nat, since: nat)   // yielded in the batching loop
    | Polling(req: nat)                                      // past it, waiting for the completion

  datatype Core = Core(pending: nat, submits: nat, ults: seq<Ult>, prepared: nat, handed: nat, calls: nat)

  datatype Event =
    | Prepare(i: nat)    // prepare a request and enter __io_uring_bottom, up to the first yield
    | Resume(i: nat)     // one turn of the batching loop
    | Complete(i: nat)   // the completion was seen

  function Init(n: nat): Core { Core(0, 0, seq(n, _ => Idle), 0, 0, 0) }

  /** The kernel completes what it has got. */
  predicate Enabled(s: Core, e: Event) {
    e.i < |s.ults| &&
    match e
    case Prepare(i) => s.ults[i].Idle?
    case Resume(i) => s.ults[i].Waiting?
    case Complete(i) => s.ults[i].Polling? && s.ults[i].req < s.handed
  }

  /** iouring_enter with the two stores after it: the kernel takes everything in the ring. */
  function Submit(s: Core): Core {
    s.(pending := 0, submits := (s.submits + 1) % WRAP, handed := s.prepared, calls := s.calls + 1)
  }

  function Move(s: Core, i: nat, u: Ult): Core
    requires i < |s.ults|
  {
    s.(ults := s.ults[i := u])
  }

  function Step(s: Core, e: Event): Core
    requires Enabled(s, e)
  {
    match e
    case Prepare(i) =>
      var s', r := s.(prepared := s.prepared + 1), s.prepared;
      if s.pending >= TH1 then Move(Submit(s'), i, Polling(r))
      else Move(s'.(pending := s.pending + 1), i, Waiting(r, s.submits, 0, s.calls))
    case Resume(i) =>
      var u := s.ults[i];
      var turns := u.turns + 1;
      if u.seen != s.submits then Move(s, i, Polling(u.req))
      else if turns > TH2 then Move(Submit(s), i, Polling(u.req))
      else Move(s, i, u.(turns := turns))
    case Complete(i) => Move(s, i, Idle)
  }

  // ---------------------------------------------------------------- the invariant

  /** A waiting thread saw the counter of its time, and nobody has submitted since if its request is in the ring. */
  predicate UltOk(s: Core, u: Ult) {
    match u
    case Idle => true
    case Waiting(req, seen, turns, since) =>
      && req < s.prepared && turns <= TH2 && since <= s.calls && seen == since % WRAP
      && (s.handed <= req <==> since == s.calls)
    case Polling(req) => req < s.handed
  }

  predicate Inv(s: Core) {
    && s.submits == s.calls % WRAP
    && s.handed <= s.prepared && s.pending == s.prepared - s.handed <= TH1
    && forall i :: 0 <= i < |s.ults| ==> UltOk(s, s.ults[i])
  }

  lemma InitInv(n: nat)
    ensures Inv(Init(n))
  {
  }

  lemma CountsOn(calls: nat)
    ensures (calls + 1) % WRAP == (calls % WRAP + 1) % WRAP
  {
  }

  lemma StepKeeps(s: Core, e: Event)
    requires Inv(s) && Enabled(s, e)
    ensures Inv(Step(s, e))
  {
    CountsOn(s.calls);
    var s' := Step(s, e);
    assert UltOk(s, s.ults[e.i]);
    forall k | 0 <= k < |s'.ults| ensures UltOk(s', s'.ults[k]) {
      assert UltOk(s, s.ults[k]);
    }
  }

  // ---------------------------------------------------------------- runs

  ghost predicate Runs(s: Core, es: seq<Event>, s': Core)
    decreases |es|
  {
    if es == [] then s' == s
    else Enabled(s, es[0]) && Runs(Step(s, es[0]), es[1..], s')
  }

  lemma {:induction false} RunKeeps(s: Core, es: seq<Event>, s': Core)
    requires Inv(s) && Runs(s, es, s')
    ensures Inv(s') && |s'.ults| == |s.ults|
    decreases |es|
  {
    if es != [] {
      StepKeeps(s, es[0]);
      RunKeeps(Step(s, es[0]), es[1..], s');
    }
  }

  /** The number of requests prepared, going by the events alone. */
  function Prepares(es: seq<Event>): nat
    decreases |es|
  {
    if es == [] then 0 else (if es[0].Prepare? then 1 else 0) + Prepares(es[1..])
  }

  /** The request thread i is busy with: k requests were prepared before the events, and `own` was its own. */
  function OwnFrom(own: Option<nat>, k: nat, es: seq<Event>, i: nat): Option<nat>
    decreases |es|
  {
    if es == [] then own
    else
      var own' := if es[0] == Prepare(i) then Some(k) else if es[0] == Complete(i) then None else own;
      OwnFrom(own', if es[0].Prepare? then k + 1 else k, es[1..], i)
  }

  /** The last request thread i has prepared and not seen completed, by its number among all. */
  function OwnRequest(es: seq<Event>, i: nat): Option<nat> { OwnFrom(None, 0, es, i) }

  predicate Owns(u: Ult, own: Option<nat>) {
    if u.Idle? then own == None else own == Some(u.req)
  }

  lemma {:induction false} RunRequests(s: Core, es: seq<Event>, s': Core, i: nat, own: Option<nat>)
    requires Runs(s, es, s') && i < |s.ults| && Owns(s.ults[i], own)
    ensures i < |s'.ults| && Owns(s'.ults[i], OwnFrom(own, s.prepared, es, i))
    decreases |es|
  {
    if es != [] {
      var own' := if es[0] == Prepare(i) then Some(s.prepared) else if es[0] == Complete(i) then None else own;
      RunRequests(Step(s, es[0]), es[1..], s', i, own');
    }
  }

  lemma {:induction false} RunPrepares(s: Core, es: seq<Event>, s': Core)
    requires Runs(s, es, s')
    ensures s'.prepared == s.prepared + Prepares(es)
    decreases |es|
  {
    if es != [] {
      RunPrepares(Step(s, es[0]), es[1..], s');
    }
  }

  // ---------------------------------------------------------------- main results

  /** Some thread handed the ring over to the kernel in this step. */
  predicate HandsOver(s: Core, s': Core) {
    s'.handed == s'.prepared && s'.pending == 0 && s'.calls == s.calls + 1 && s'.submits == (s.submits + 1) % WRAP
  }

  /**
   Nobody gets past the batching loop before its request is with the kernel: in every run, the request a
   thread has prepared and is polling for has been handed over, so that its completion can come.
  */
  lemma LeavesOnlySubmitted(n: nat, es: seq<Event>, s: Core, i: nat)
    requires Runs(Init(n), es, s) && i < n
    ensures |s.ults| == n
    ensures OwnRequest(es, i) == None <==> s.ults[i].Idle?
    ensures s.ults[i].Polling? ==>
      OwnRequest(es, i) == Some(s.ults[i].req) && s.ults[i].req < s.handed && Enabled(s, Complete(i))
  {
    InitInv(n);
    RunKeeps(Init(n), es, s);
    RunRequests(Init(n), es, s, i, None);
    assert UltOk(s, s.ults[i]);
  }

  /**
   pending_req is the number of requests prepared and not yet with the kernel, never above the threshold;
   the kernel has got all earlier ones, in the order they were prepared.
  */
  lemma PendingIsUnsubmitted(n: nat, es: seq<Event>, s: Core)
    requires Runs(Init(n), es, s)
    ensures s.prepared == Prepares(es) && s.handed + s.pending == Prepares(es) && s.pending <= TH1
  {
    InitInv(n);
    RunKeeps(Init(n), es, s);
    RunPrepares(Init(n), es, s);
  }

  /**
   A step hands the ring over exactly when its request is one more than the threshold, or on the second
   turn of a thread that has seen no submit; any other step leaves the kernel with what it had.
  */
  lemma SubmitsExactlyWhen(s: Core, e: Event)
    requires Inv(s) && Enabled(s, e)
    ensures var s' := Step(s, e);
      var due := match e
        case Prepare(i) => s.pending == TH1
        case Resume(i) => s.ults[i].turns == TH2 && s.ults[i].seen == s.submits
        case Complete(i) => false;
      if due then HandsOver(s, s') else s'.handed == s.handed && s'.calls == s.calls && s'.submits == s.submits
  {
    assert UltOk(s, s.ults[e.i]);
  }

  /**
   A thread leaves the batching loop on its second turn at the latest.  It leaves without a submit of its
   own exactly when the number of submits since it prepared its request is not a multiple of 65536; it was
   somebody else's submit then that took its request.
  */
  lemma TurnsEnd(n: nat, es: seq<Event>, s: Core, i: nat)
    requires Runs(Init(n), es, s) && Enabled(s, Resume(i))
    ensures var u, s' := s.ults[i], Step(s, Resume(i));
      && u.since <= s.calls && (u.req < s.handed <==> u.since < s.calls)
      && if (s.calls - u.since) % WRAP != 0 then s'.ults[i] == Polling(u.req) && s'.calls == s.calls
         else if u.turns == TH2 then s'.ults[i] == Polling(u.req) && HandsOver(s, s')
         else u.turns == 0 && s'.ults[i] == u.(turns := 1) && s'.calls == s.calls
  {
    InitInv(n);
    RunKeeps(Init(n), es, s);
    assert UltOk(s, s.ults[i]);
    SameCount(s.ults[i].since, s.calls);
  }

  lemma SameCount(a: nat, b: nat)
    requires a <= b
    ensures (b - a) % WRAP == 0 <==> a % WRAP == b % WRAP
  {
  }
}
