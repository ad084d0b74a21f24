/**
 The NVMe queue pair of mylib/nvme.cc (class QP) together with the drive that serves it.

 The host submits commands through a ring of `n` slots and learns about completions
 through a ring of `n` entries whose phase bit flips on every lap.  The drive fetches
 commands in ring order, transfers their data, and posts completions in any order.
 Every atomic action of either side is an `Event`; a run is a sequence of events.

 The last seven fields of `Q` are history.  A command is named by its ticket, the number of
 commands submitted before it; `stage` doubles as the drive's own record of the commands it has
 fetched and not announced.  The host never reads any of them, and the one other guard that
 mentions them (a fetch needs a command not yet fetched) always holds: FetchTakesOldest.
*/
module QueuePair {
  import opened Prelude
  import opened Addressing
  import opened Counting

  /** Bytes of one bounce slot (BLKSZ). */
  const SLOT := Addressing.UNIT

  /** One entry of the submission ring; the command identifier is the slot it sits in. */
  datatype Sqe = Sqe(cid: nat, write: bool, slba: nat, nblk: nat)

  /** One entry of the completion ring: the command identifier and the phase bit. */
  datatype Cqe = Cqe(cid: nat, p: bool)

  /** What a caller asked for: `data` is the caller's buffer at the time of a write. */
  datatype Req = Req(cid: nat, write: bool, slba: nat, nblk: nat, len: nat, data: seq<Byte>)

  /** Where a submitted command is. */
  datatype Stage = Queued | InFlight | Posted | Reaped

  datatype Q = Q(
    n: nat,
    // host
    sqTail: nat, cqHead: nat, cqPhase: bool,
    done: seq<int>, rbuf: seq<Option<nat>>, len: seq<nat>,
    // memory shared with the drive
    sqe: seq<Sqe>, bounce: seq<seq<Byte>>, cq: seq<Cqe>, doorbell: nat,
    // drive
    sqHead: nat, cqTail: nat, devPhase: bool,
    // history; `mem` holds the destination buffer of each read, named by its ticket
    sent: seq<Req>, stage: seq<Stage>, owner: seq<nat>, io: seq<seq<Byte>>,
    posted: seq<nat>, reaped: seq<nat>, mem: map<nat, seq<Byte>>)

  datatype Event =
    | Submit(write: bool, slba: nat, nblk: nat, len: nat, data: seq<Byte>)
    | Fetch(payload: seq<Byte>)
    | Post(ticket: nat)
    | Reap

  function Init(n: nat): Q {
    Q(n, 0, 0, true,
      seq(n, _ => 2), seq(n, _ => None), seq(n, _ => 0),
      seq(n, i requires 0 <= i < n => Sqe(i, false, 0, 1)),
      seq(n, _ => seq(SLOT, _ => 0)), seq(n, _ => Cqe(0, false)), 0,
      0, 0, true,
      [], [], seq(n, _ => 0), [], [], [], map[])
  }

  /** The ring index `k` places after the start of a ring of `n`, for k < 2n. */
  function Wrap(k: nat, n: nat): (r: nat)
    requires k < 2 * n
    ensures r < n
  {
    if k < n then k else k - n
  }

  // ---------------------------------------------------------------- the steps

  predicate Shape(q: Q) {
    && 0 < q.n
    && q.sqTail < q.n && q.cqHead < q.n && q.sqHead < q.n && q.cqTail < q.n
    && |q.done| == |q.rbuf| == |q.len| == |q.sqe| == |q.bounce| == |q.cq| == |q.owner| == q.n
    && |q.stage| == |q.sent|
    && |q.io| <= |q.sent|
    && (forall t :: 0 <= t < |q.io| ==> |q.io[t]| <= SLOT)
    && |q.reaped| <= |q.posted|
    && (forall i :: 0 <= i < q.n ==> q.cq[i].cid < q.n)
    && (forall i :: 0 <= i < q.n ==> |q.bounce[i]| == SLOT && q.len[i] <= SLOT)
    && (forall i :: 0 <= i < q.n ==> q.sqe[i].cid == i && 1 <= q.sqe[i].nblk && q.sqe[i].nblk * SECTOR <= SLOT)
    && (forall t :: 0 <= t < |q.sent| ==> q.sent[t].cid < q.n && GoodReq(q.sent[t]))
  }

  predicate GoodReq(r: Req) {
    && 1 <= r.nblk && r.nblk * SECTOR <= SLOT
    && r.len <= r.nblk * SECTOR
    && |r.data| == (if r.write then r.len else 0)
  }

  /** The guard of each event; every condition is one the acting side can see. */
  predicate Enabled(q: Q, e: Event) {
    Shape(q) &&
    match e
    case Submit(write, slba, nblk, len, data) =>
      q.done[q.sqTail] != 0 && GoodReq(Req(q.sqTail, write, slba, nblk, len, data))
    case Fetch(payload) =>
      q.sqHead != q.doorbell && |payload| == q.sqe[q.sqHead].nblk * SECTOR
      && (q.sqe[q.sqHead].write ==> payload == q.bounce[q.sqHead][..|payload|])
      && |q.io| < |q.sent|
    case Post(t) =>
      t < |q.sent| && q.stage[t] == InFlight
    case Reap =>
      q.cq[q.cqHead].p == q.cqPhase
  }

  function Step(q: Q, e: Event): Q
    requires Enabled(q, e)
  {
    match e
    case Submit(write, slba, nblk, len, data) => SubmitStep(q, write, slba, nblk, len, data)
    case Fetch(payload) => FetchStep(q, payload)
    case Post(t) => PostStep(q, t)
    case Reap => ReapStep(q)
  }

  /** nvme_read_req / nvme_write_req once new_sqe has found its slot free. */
  function SubmitStep(q: Q, write: bool, slba: nat, nblk: nat, len: nat, data: seq<Byte>): Q
    requires q.sqTail < |q.done| == |q.rbuf| == |q.len| == |q.sqe| == |q.bounce| == |q.owner|
    requires len <= |q.bounce[q.sqTail]|
  {
    var c, t := q.sqTail, |q.sent|;
    var tail := if q.sqTail + 1 == q.n then 0 else q.sqTail + 1;
    q.(done := q.done[c := 0],
       sqTail := tail,
       doorbell := tail,
       bounce := if write then q.bounce[c := data + q.bounce[c][len..]] else q.bounce,
       sqe := q.sqe[c := Sqe(c, write, slba, nblk)],
       rbuf := q.rbuf[c := if write then None else Some(t)],
       len := q.len[c := if write then 0 else len],
       sent := q.sent + [Req(c, write, slba, nblk, len, data)],
       stage := q.stage + [Queued],
       owner := q.owner[c := t])
  }

  /** The drive takes the next command of the ring and moves its data. */
  function FetchStep(q: Q, payload: seq<Byte>): Q
    requires q.sqHead < |q.sqe| == |q.bounce| && |payload| <= |q.bounce[q.sqHead]| && |q.io| < |q.stage|
  {
    var c, t := q.sqHead, |q.io|;
    q.(sqHead := if q.sqHead + 1 == q.n then 0 else q.sqHead + 1,
       bounce := if q.sqe[c].write then q.bounce else q.bounce[c := payload + q.bounce[c][|payload|..]],
       io := q.io + [payload],
       stage := q.stage[t := InFlight])
  }

  /** The drive announces the completion of any command it has fetched. */
  function PostStep(q: Q, t: nat): Q
    requires q.cqTail < |q.cq| && t < |q.sent| == |q.stage|
  {
    var last := q.cqTail + 1 == q.n;
    q.(cq := q.cq[q.cqTail := Cqe(q.sent[t].cid, q.devPhase)],
       cqTail := if last then 0 else q.cqTail + 1,
       devPhase := if last then !q.devPhase else q.devPhase,
       stage := q.stage[t := Posted],
       posted := q.posted + [t])
  }

  /** One turn of the do-while loop of check_cq. */
  function ReapStep(q: Q): Q
    requires q.cqHead < |q.cq| && q.cq[q.cqHead].cid < |q.done| == |q.rbuf| == |q.len| == |q.bounce| == |q.owner|
    requires var c := q.cq[q.cqHead].cid; q.len[c] <= |q.bounce[c]|
  {
    var c := q.cq[q.cqHead].cid;
    var last := q.cqHead + 1 == q.n;
    var t := q.owner[c];
    q.(mem := match q.rbuf[c] case Some(b) => q.mem[b := q.bounce[c][..q.len[c]]] case None => q.mem,
       done := q.done[c := 1],
       cqHead := if last then 0 else q.cqHead + 1,
       cqPhase := if last then !q.cqPhase else q.cqPhase,
       stage := if t < |q.stage| then q.stage[t := Reaped] else q.stage,
       reaped := q.reaped + [t])
  }

  // ---------------------------------------------------------------- the invariant

  /** Commands submitted and not fetched occupy consecutive slots from sqHead to sqTail. */
  predicate SubmissionRing(q: Q)
    requires Shape(q)
  {
    var u := |q.sent| - |q.io|;
    && u <= q.n
    && q.doorbell == q.sqTail == Wrap(q.sqHead + u, q.n)
    && (forall t :: |q.io| <= t < |q.sent| ==> q.sent[t].cid == Wrap(q.sqHead + (t - |q.io|), q.n))
  }

  /** Completions posted and not reaped occupy consecutive entries from cqHead to cqTail. */
  predicate CompletionRing(q: Q)
    requires Shape(q)
  {
    var m := |q.posted| - |q.reaped|;
    && m <= q.n
    && q.cqTail == Wrap(q.cqHead + m, q.n)
    && (q.devPhase == q.cqPhase <==> q.cqHead + m < q.n)
    && (forall i :: 0 <= i < q.n ==> q.cq[i].p == (if i < q.cqTail then q.devPhase else !q.devPhase))
    && (forall k :: |q.reaped| <= k < |q.posted| ==>
          q.posted[k] < |q.sent| &&
          q.cq[Wrap(q.cqHead + (k - |q.reaped|), q.n)].cid == q.sent[q.posted[k]].cid)
  }

  /** Each ticket is in the stage its logs say, and is posted and reaped at most once. */
  predicate Stages(q: Q)
    requires Shape(q)
  {
    && (forall t :: 0 <= t < |q.sent| ==> (q.stage[t] == Queued <==> |q.io| <= t))
    && (forall k :: 0 <= k < |q.posted| ==>
          q.posted[k] < |q.sent| && q.stage[q.posted[k]] == (if k < |q.reaped| then Reaped else Posted))
    && (forall i, j :: 0 <= i < j < |q.posted| ==> q.posted[i] != q.posted[j])
    && (forall t :: 0 <= t < |q.sent| && q.stage[t] in {Posted, Reaped} ==> t in q.posted)
    && q.reaped == q.posted[..|q.reaped|]
  }

  /** done_flag is 0 exactly on the slots of unreaped commands, and each has one of them. */
  predicate Slots(q: Q)
    requires Shape(q)
  {
    && (forall t :: 0 <= t < |q.sent| && q.stage[t] != Reaped ==>
          q.owner[q.sent[t].cid] == t && q.done[q.sent[t].cid] == 0)
    && (forall t :: 0 <= t < |q.sent| ==> q.done[q.sent[t].cid] != 2)
    && (forall c :: 0 <= c < q.n ==> q.done[c] in {0, 1, 2})
    && (forall c :: 0 <= c < q.n && q.done[c] == 0 ==>
          q.owner[c] < |q.sent| && q.sent[q.owner[c]].cid == c && q.stage[q.owner[c]] != Reaped)
  }

  /** A slot in use still holds what its command put there. */
  predicate SlotContents(q: Q)
    requires Shape(q)
  {
    && (forall t :: 0 <= t < |q.sent| && q.stage[t] != Reaped ==> SlotHolds(q, t))
    && (forall t :: 0 <= t < |q.io| ==> Transferred(q.sent[t], q.io[t]))
  }

  predicate SlotHolds(q: Q, t: nat)
    requires Shape(q) && t < |q.sent|
  {
    var r := q.sent[t];
    var c := r.cid;
    && q.sqe[c] == Sqe(c, r.write, r.slba, r.nblk)
    && q.rbuf[c] == (if r.write then None else Some(t))
    && (r.write ==> q.bounce[c][..r.len] == r.data)
    && (!r.write ==> q.len[c] == r.len)
    && (!r.write && t < |q.io| ==> q.bounce[c][..|q.io[t]|] == q.io[t])
  }

  /** What crossed the bus for a fetched command: whole sectors; a write carries its caller's bytes. */
  predicate Transferred(r: Req, payload: seq<Byte>)
    requires GoodReq(r)
  {
    |payload| == r.nblk * SECTOR && (r.write ==> payload[..r.len] == r.data)
  }

  /** A reaped read has filled its own destination with what the drive returned for it. */
  predicate Delivered(q: Q)
    requires Shape(q)
  {
    forall t :: 0 <= t < |q.sent| && q.stage[t] == Reaped && !q.sent[t].write ==>
      t < |q.io| && q.sent[t].len <= |q.io[t]| && t in q.mem && q.mem[t] == q.io[t][..q.sent[t].len]
  }

  predicate Inv(q: Q) {
    Shape(q) && SubmissionRing(q) && CompletionRing(q) && Stages(q) && Slots(q) && SlotContents(q) && Delivered(q)
  }

  lemma InitInv(n: nat)
    requires 0 < n
    ensures Inv(Init(n))
  {
  }

  // ---------------------------------------------------------------- preservation

  lemma SubmitKeepsShape(q: Q, write: bool, slba: nat, nblk: nat, len: nat, data: seq<Byte>)
    requires Enabled(q, Submit(write, slba, nblk, len, data))
    ensures Shape(SubmitStep(q, write, slba, nblk, len, data))
  {
  }

  lemma SubmitKeepsSubmissionRing(q: Q, write: bool, slba: nat, nblk: nat, len: nat, data: seq<Byte>)
    requires Shape(q) && SubmissionRing(q) && |q.sent| - |q.io| < q.n
    requires Enabled(q, Submit(write, slba, nblk, len, data)) && Shape(SubmitStep(q, write, slba, nblk, len, data))
    ensures SubmissionRing(SubmitStep(q, write, slba, nblk, len, data))
  {
  }

  lemma SubmitKeepsCompletionRing(q: Q, write: bool, slba: nat, nblk: nat, len: nat, data: seq<Byte>)
    requires Shape(q) && CompletionRing(q)
    requires Enabled(q, Submit(write, slba, nblk, len, data)) && Shape(SubmitStep(q, write, slba, nblk, len, data))
    ensures CompletionRing(SubmitStep(q, write, slba, nblk, len, data))
  {
  }

  lemma SubmitKeepsStages(q: Q, write: bool, slba: nat, nblk: nat, len: nat, data: seq<Byte>)
    requires Shape(q) && Stages(q)
    requires Enabled(q, Submit(write, slba, nblk, len, data)) && Shape(SubmitStep(q, write, slba, nblk, len, data))
    ensures Stages(SubmitStep(q, write, slba, nblk, len, data))
  {
  }

  lemma SubmitKeepsSlots(q: Q, write: bool, slba: nat, nblk: nat, len: nat, data: seq<Byte>)
    requires Shape(q) && Slots(q)
    requires Enabled(q, Submit(write, slba, nblk, len, data)) && Shape(SubmitStep(q, write, slba, nblk, len, data))
    ensures Slots(SubmitStep(q, write, slba, nblk, len, data))
  {
  }

  lemma SubmitKeepsContents(q: Q, write: bool, slba: nat, nblk: nat, len: nat, data: seq<Byte>)
    requires Shape(q) && Slots(q) && SlotContents(q)
    requires Enabled(q, Submit(write, slba, nblk, len, data)) && Shape(SubmitStep(q, write, slba, nblk, len, data))
    ensures SlotContents(SubmitStep(q, write, slba, nblk, len, data))
  {
    var q' := SubmitStep(q, write, slba, nblk, len, data);
    forall s | 0 <= s < |q'.sent| && q'.stage[s] != Reaped ensures SlotHolds(q', s) {
      assert s < |q.sent| ==> SlotHolds(q, s) && q.sent[s].cid != q.sqTail;
    }
  }

  lemma SubmitKeepsDelivered(q: Q, write: bool, slba: nat, nblk: nat, len: nat, data: seq<Byte>)
    requires Shape(q) && Delivered(q)
    requires Enabled(q, Submit(write, slba, nblk, len, data)) && Shape(SubmitStep(q, write, slba, nblk, len, data))
    ensures Delivered(SubmitStep(q, write, slba, nblk, len, data))
  {
  }

  /** A slot new_sqe accepts belongs to no unreaped command, and the ring has room for it. */
  lemma SubmitSlotIsFree(q: Q)
    requires Inv(q) && q.done[q.sqTail] != 0
    ensures |q.sent| - |q.io| < q.n
    ensures forall t :: 0 <= t < |q.sent| && q.sent[t].cid == q.sqTail ==> q.stage[t] == Reaped
  {
    assert |q.io| < |q.sent| ==> q.stage[|q.io|] == Queued;
  }

  lemma SubmitKeeps(q: Q, write: bool, slba: nat, nblk: nat, len: nat, data: seq<Byte>)
    requires Inv(q) && Enabled(q, Submit(write, slba, nblk, len, data))
    ensures Inv(SubmitStep(q, write, slba, nblk, len, data))
  {
    SubmitSlotIsFree(q);
    SubmitKeepsShape(q, write, slba, nblk, len, data);
    SubmitKeepsSubmissionRing(q, write, slba, nblk, len, data);
    SubmitKeepsCompletionRing(q, write, slba, nblk, len, data);
    SubmitKeepsStages(q, write, slba, nblk, len, data);
    SubmitKeepsSlots(q, write, slba, nblk, len, data);
    SubmitKeepsContents(q, write, slba, nblk, len, data);
    SubmitKeepsDelivered(q, write, slba, nblk, len, data);
  }

  /** The drive fetches the oldest command it has not fetched, from the slot that holds it. */
  lemma FetchTakesOldest(q: Q)
    requires Shape(q) && SubmissionRing(q) && Stages(q) && q.sqHead != q.doorbell
    ensures |q.io| < |q.sent| && q.sent[|q.io|].cid == q.sqHead && q.stage[|q.io|] == Queued
  {
  }

  lemma FetchKeepsShape(q: Q, payload: seq<Byte>)
    requires Enabled(q, Fetch(payload))
    ensures Shape(FetchStep(q, payload))
  {
  }

  lemma FetchKeepsSubmissionRing(q: Q, payload: seq<Byte>)
    requires Shape(q) && SubmissionRing(q)
    requires Enabled(q, Fetch(payload)) && Shape(FetchStep(q, payload))
    ensures SubmissionRing(FetchStep(q, payload))
  {
    var q' := FetchStep(q, payload);
    assert q.sqHead + (|q.sent| - |q.io|) == q.sqHead + 1 + (|q'.sent| - |q'.io|);
  }

  lemma FetchKeepsCompletionRing(q: Q, payload: seq<Byte>)
    requires Shape(q) && CompletionRing(q)
    requires Enabled(q, Fetch(payload)) && Shape(FetchStep(q, payload))
    ensures CompletionRing(FetchStep(q, payload))
  {
  }

  lemma FetchKeepsStages(q: Q, payload: seq<Byte>)
    requires Shape(q) && Stages(q)
    requires Enabled(q, Fetch(payload)) && Shape(FetchStep(q, payload))
    ensures Stages(FetchStep(q, payload))
  {
  }

  lemma FetchKeepsSlots(q: Q, payload: seq<Byte>)
    requires Shape(q) && Slots(q)
    requires Enabled(q, Fetch(payload)) && Shape(FetchStep(q, payload)) && q.stage[|q.io|] == Queued
    ensures Slots(FetchStep(q, payload))
  {
  }

  lemma FetchKeepsContents(q: Q, payload: seq<Byte>)
    requires Shape(q) && Slots(q) && SlotContents(q) && Enabled(q, Fetch(payload))
    requires q.stage[|q.io|] == Queued && q.sent[|q.io|].cid == q.sqHead && Shape(FetchStep(q, payload))
    ensures SlotContents(FetchStep(q, payload))
  {
    var q' := FetchStep(q, payload);
    assert SlotHolds(q, |q.io|);
    forall s | 0 <= s < |q'.sent| && q'.stage[s] != Reaped ensures SlotHolds(q', s) {
      assert SlotHolds(q, s);
      if s == |q.io| {
        FetchKeepsOwnSlot(q, payload);
      } else {
        assert q.owner[q.sent[s].cid] == s && q.owner[q.sqHead] == |q.io|;
        FetchKeepsOtherSlot(q, payload, s);
      }
    }
    FetchTransfers(q, payload);
  }

  lemma FetchKeepsOwnSlot(q: Q, payload: seq<Byte>)
    requires Enabled(q, Fetch(payload)) && Shape(FetchStep(q, payload))
    requires q.sent[|q.io|].cid == q.sqHead && SlotHolds(q, |q.io|)
    ensures SlotHolds(FetchStep(q, payload), |q.io|)
  {
  }

  lemma FetchKeepsOtherSlot(q: Q, payload: seq<Byte>, s: nat)
    requires Enabled(q, Fetch(payload)) && Shape(FetchStep(q, payload))
    requires s < |q.sent| && s != |q.io| && q.sent[s].cid != q.sqHead && SlotHolds(q, s)
    ensures SlotHolds(FetchStep(q, payload), s)
  {
  }

  lemma FetchTransfers(q: Q, payload: seq<Byte>)
    requires Enabled(q, Fetch(payload)) && q.sent[|q.io|].cid == q.sqHead && SlotHolds(q, |q.io|)
    ensures Transferred(q.sent[|q.io|], payload)
  {
    var r := q.sent[|q.io|];
    assert r.write ==> payload[..r.len] == q.bounce[q.sqHead][..r.len];
  }

  lemma FetchKeepsDelivered(q: Q, payload: seq<Byte>)
    requires Shape(q) && Delivered(q)
    requires Enabled(q, Fetch(payload)) && Shape(FetchStep(q, payload)) && q.stage[|q.io|] == Queued
    ensures Delivered(FetchStep(q, payload))
  {
  }

  lemma FetchKeeps(q: Q, payload: seq<Byte>)
    requires Inv(q) && Enabled(q, Fetch(payload))
    ensures Inv(FetchStep(q, payload))
  {
    FetchTakesOldest(q);
    FetchKeepsShape(q, payload);
    FetchKeepsSubmissionRing(q, payload);
    FetchKeepsCompletionRing(q, payload);
    FetchKeepsStages(q, payload);
    FetchKeepsSlots(q, payload);
    FetchKeepsContents(q, payload);
    FetchKeepsDelivered(q, payload);
  }

  /** Unreaped commands, all different, are at most as many as there are slots. */
  lemma DistinctUnreaped(q: Q, ts: seq<nat>)
    requires Shape(q) && Slots(q)
    requires forall i :: 0 <= i < |ts| ==> ts[i] < |q.sent| && q.stage[ts[i]] != Reaped
    requires forall i, j :: 0 <= i < j < |ts| ==> ts[i] != ts[j]
    ensures |ts| <= q.n
  {
    var cids := seq(|ts|, i requires 0 <= i < |ts| => q.sent[ts[i]].cid);
    forall i, j | 0 <= i < j < |cids| ensures cids[i] != cids[j] {
      assert q.owner[q.sent[ts[i]].cid] == ts[i];
    }
    Pigeonhole(cids, q.n);
  }

  /** A command still in flight has a completion entry left that the host has read. */
  lemma CompletionRingHasRoom(q: Q, t: nat)
    requires Shape(q) && Stages(q) && Slots(q) && t < |q.sent| && q.stage[t] == InFlight
    ensures |q.posted| - |q.reaped| < q.n
  {
    var unread := q.posted[|q.reaped|..];
    forall i | 0 <= i < |unread| ensures unread[i] < |q.sent| && q.stage[unread[i]] == Posted {
      assert unread[i] == q.posted[|q.reaped| + i];
    }
    DistinctUnreaped(q, unread + [t]);
  }

  lemma PostKeepsShape(q: Q, t: nat)
    requires Enabled(q, Post(t))
    ensures Shape(PostStep(q, t))
  {
  }

  lemma PostKeepsSubmissionRing(q: Q, t: nat)
    requires Shape(q) && SubmissionRing(q)
    requires Enabled(q, Post(t)) && Shape(PostStep(q, t))
    ensures SubmissionRing(PostStep(q, t))
  {
  }

  lemma PostKeepsCompletionRing(q: Q, t: nat)
    requires Shape(q) && CompletionRing(q) && |q.posted| - |q.reaped| < q.n
    requires Enabled(q, Post(t)) && Shape(PostStep(q, t))
    ensures CompletionRing(PostStep(q, t))
  {
  }

  lemma PostKeepsStages(q: Q, t: nat)
    requires Shape(q) && Stages(q)
    requires Enabled(q, Post(t)) && Shape(PostStep(q, t))
    ensures Stages(PostStep(q, t))
  {
    assert t !in q.posted;
  }

  lemma PostKeepsSlots(q: Q, t: nat)
    requires Shape(q) && Slots(q)
    requires Enabled(q, Post(t)) && Shape(PostStep(q, t))
    ensures Slots(PostStep(q, t))
  {
  }

  lemma PostKeepsContents(q: Q, t: nat)
    requires Shape(q) && SlotContents(q)
    requires Enabled(q, Post(t)) && Shape(PostStep(q, t))
    ensures SlotContents(PostStep(q, t))
  {
    var q' := PostStep(q, t);
    forall s | 0 <= s < |q'.sent| && q'.stage[s] != Reaped ensures SlotHolds(q', s) {
      assert SlotHolds(q, s);
    }
  }

  lemma PostKeepsDelivered(q: Q, t: nat)
    requires Shape(q) && Delivered(q)
    requires Enabled(q, Post(t)) && Shape(PostStep(q, t))
    ensures Delivered(PostStep(q, t))
  {
  }

  lemma PostKeeps(q: Q, t: nat)
    requires Inv(q) && Enabled(q, Post(t))
    ensures Inv(PostStep(q, t))
  {
    CompletionRingHasRoom(q, t);
    PostKeepsShape(q, t);
    PostKeepsSubmissionRing(q, t);
    PostKeepsCompletionRing(q, t);
    PostKeepsStages(q, t);
    PostKeepsSlots(q, t);
    PostKeepsContents(q, t);
    PostKeepsDelivered(q, t);
  }

  /**
   The entry at cqHead carries the current phase exactly when a posted completion is unread,
   and then it is the oldest unread one.
  */
  lemma PhaseTellsUnread(q: Q)
    requires Shape(q) && CompletionRing(q) && Stages(q) && Slots(q)
    ensures Enabled(q, Reap) <==> |q.reaped| < |q.posted|
    ensures Enabled(q, Reap) ==>
      var t := q.posted[|q.reaped|];
      q.cq[q.cqHead].cid == q.sent[t].cid && q.owner[q.sent[t].cid] == t && q.stage[t] == Posted
  {
    if |q.reaped| < |q.posted| {
      var t := q.posted[|q.reaped|];
      assert q.cq[Wrap(q.cqHead + 0, q.n)].cid == q.sent[t].cid;
      assert q.stage[t] == Posted;
    }
  }

  lemma ReapKeepsShape(q: Q)
    requires Enabled(q, Reap) && |q.reaped| < |q.posted|
    ensures Shape(ReapStep(q))
  {
  }

  lemma ReapKeepsSubmissionRing(q: Q)
    requires Shape(q) && SubmissionRing(q)
    requires Enabled(q, Reap) && Shape(ReapStep(q))
    ensures SubmissionRing(ReapStep(q))
  {
  }

  lemma ReapKeepsCompletionRing(q: Q)
    requires Shape(q) && CompletionRing(q) && |q.reaped| < |q.posted|
    requires Enabled(q, Reap) && Shape(ReapStep(q))
    ensures CompletionRing(ReapStep(q))
  {
    var q' := ReapStep(q);
    assert q.cqHead + (|q.posted| - |q.reaped|) == q.cqHead + 1 + (|q'.posted| - |q'.reaped|);
  }

  lemma ReapKeepsStages(q: Q)
    requires Shape(q) && Stages(q) && |q.reaped| < |q.posted| && q.owner[q.cq[q.cqHead].cid] == q.posted[|q.reaped|]
    requires Enabled(q, Reap) && Shape(ReapStep(q))
    ensures Stages(ReapStep(q))
  {
    assert q.posted[..|q.reaped| + 1] == q.posted[..|q.reaped|] + [q.posted[|q.reaped|]];
  }

  lemma ReapKeepsSlots(q: Q, t: nat)
    requires Shape(q) && Slots(q)
    requires t < |q.sent| && q.stage[t] == Posted && q.cq[q.cqHead].cid == q.sent[t].cid
    requires Enabled(q, Reap) && Shape(ReapStep(q))
    ensures Slots(ReapStep(q))
  {
    assert q.owner[q.sent[t].cid] == t;
  }

  lemma ReapKeepsContents(q: Q, t: nat)
    requires Shape(q) && Slots(q) && SlotContents(q)
    requires t < |q.sent| && q.stage[t] == Posted && q.cq[q.cqHead].cid == q.sent[t].cid
    requires Enabled(q, Reap) && Shape(ReapStep(q))
    ensures SlotContents(ReapStep(q))
  {
    var q' := ReapStep(q);
    assert q.owner[q.sent[t].cid] == t;
    forall s | 0 <= s < |q'.sent| && q'.stage[s] != Reaped ensures SlotHolds(q', s) {
      assert SlotHolds(q, s);
    }
  }

  lemma ReapKeepsDelivered(q: Q, t: nat)
    requires Shape(q) && Stages(q) && Delivered(q)
    requires t < |q.sent| && q.stage[t] == Posted && q.cq[q.cqHead].cid == q.sent[t].cid
    requires q.owner[q.sent[t].cid] == t && SlotHolds(q, t) && t < |q.io| && Transferred(q.sent[t], q.io[t])
    requires Enabled(q, Reap) && Shape(ReapStep(q))
    ensures Delivered(ReapStep(q))
  {
    var c, r := q.sent[t].cid, q.sent[t];
    if !r.write {
      assert q.bounce[c][..|q.io[t]|][..r.len] == q.bounce[c][..r.len];
    }
  }

  lemma ReapKeeps(q: Q)
    requires Inv(q) && Enabled(q, Reap)
    ensures Inv(ReapStep(q))
  {
    PhaseTellsUnread(q);
    var t := q.posted[|q.reaped|];
    ReapKeepsShape(q);
    ReapKeepsSubmissionRing(q);
    ReapKeepsCompletionRing(q);
    ReapKeepsStages(q);
    ReapKeepsSlots(q, t);
    ReapKeepsContents(q, t);
    ReapKeepsDelivered(q, t);
  }

  lemma StepKeeps(q: Q, e: Event)
    requires Inv(q) && Enabled(q, e)
    ensures Inv(Step(q, e))
  {
    match e
    case Submit(write, slba, nblk, len, data) => SubmitKeeps(q, write, slba, nblk, len, data);
    case Fetch(payload) => FetchKeeps(q, payload);
    case Post(t) => PostKeeps(q, t);
    case Reap => ReapKeeps(q);
  }
}
