/**
 nvme_read_req, nvme_write_req and nvme_check of mylib/nvme.cc over all queue pairs: one for every
 drive and core.  A request is known to its caller by its identifier alone.
*/
module Nvme {
  import opened Prelude
  import opened Addressing
  import opened Bounce
  import opened QueuePair
  import opened QueuePairRuns
  import opened QueuePairDriver

  /** The queue pairs of one drive, all different. */
  ghost predicate Row(row: seq<QP>, cores: nat, depth: nat)
    reads row
  {
    && |row| == cores
    && (forall c {:trigger row[c].Valid()} :: 0 <= c < cores ==>
          row[c].n == depth && (FitsPages(depth) <==> row[c].Valid()))
    && (forall c, b :: 0 <= c < b < cores ==> row[c] != row[b])
  }

  method LongerRow(row: seq<QP>, depth: nat) returns (longer: seq<QP>)
    requires 0 < depth && Row(row, |row|, depth)
    ensures Row(longer, |row| + 1, depth) && longer[..|row|] == row && fresh(longer[|row|])
  {
    var q := new QP(depth);
    longer := row + [q];
    assert forall c :: 0 <= c < |row| ==> longer[c] == row[c] && (FitsPages(depth) <==> row[c].Valid());
  }

  method NewRow(cores: nat, depth: nat) returns (row: seq<QP>)
    requires 0 < depth
    ensures Row(row, cores, depth) && forall c :: 0 <= c < cores ==> fresh(row[c])
  {
    row := [];
    for c := 0 to cores
      invariant Row(row, c, depth) && forall b :: 0 <= b < c ==> fresh(row[b])
    {
      ghost var was := row;
      row := LongerRow(row, depth);
      assert forall b :: 0 <= b < c ==> row[b] == was[b];
    }
  }

  class Controller {
    const nd: nat
    const nc: nat
    const qd: nat
    const qps: seq<seq<QP>>

    function Queues(): set<QP> {
      set d, c | 0 <= d < |qps| && 0 <= c < |qps[d]| :: qps[d][c]
    }

    /** A queue pair of its own for every drive and core. */
    ghost predicate Shaped() {
      && |qps| == nd && 0 < nd && 0 < qd
      && (forall d :: 0 <= d < nd ==> |qps[d]| == nc)
      && (forall d, c, e, b :: (0 <= d < nd && 0 <= c < nc && 0 <= e < nd && 0 <= b < nc
            && qps[d][c] == qps[e][b]) ==> d == e && c == b)
    }

    ghost predicate Valid()
      reads this, Queues()
    {
      Shaped() && forall d, c :: 0 <= d < nd && 0 <= c < nc ==> qps[d][c].n == qd && qps[d][c].Valid()
    }

    /** The queue pairs can be used if and only if their slots lie inside their pages. */
    constructor (drives: nat, cores: nat, depth: nat)
      requires 0 < drives && 0 < depth
      ensures Shaped() && nd == drives && nc == cores && qd == depth
      ensures Valid() <==> cores == 0 || FitsPages(depth)
    {
      var rows: seq<seq<QP>> := [];
      for d := 0 to drives
        invariant |rows| == d && forall e :: 0 <= e < d ==> Row(rows[e], cores, depth)
        invariant forall e, b, f, a :: 0 <= e < f < d && 0 <= b < cores && 0 <= a < cores ==> rows[e][b] != rows[f][a]
        invariant forall e, b :: 0 <= e < d && 0 <= b < cores ==> fresh(rows[e][b])
      {
        var row := NewRow(cores, depth);
        rows := rows + [row];
      }
      nd, nc, qd, qps := drives, cores, depth, rows;
      new;
      forall d, c | 0 <= d < drives && 0 <= c < cores
        ensures rows[d][c].n == depth && (FitsPages(depth) <==> rows[d][c].Valid())
      {
        assert Row(rows[d], cores, depth);
        assert FitsPages(depth) <==> rows[d][c].Valid();
      }
      if 0 < cores {
        assert qps[0][0].Valid() <==> FitsPages(depth);
      }
    }

    /** The request a queue knows as ticket t was given the identifier rid. */
    predicate HasRid(d: int, c: int, t: int, rid: nat)
      reads Queues()
    {
      && 0 <= d < |qps| && 0 <= c < |qps[d]| && c < nc && 0 <= t < |qps[d][c].log.sent|
      && Rid(d, c, qps[d][c].log.sent[t].cid, qd, nc) == rid
    }

    /** A request to the queue of drive did and the core, for a sector of that drive. */
    method RequestTo(
      did: nat, write: bool, sector: nat, nblk: nat, core: nat, count: nat, data: seq<Byte>, env: seq<seq<seq<Event>>>)
      returns (ok: bool, cid: nat)
      requires Valid() && did < nd && core < nc && GoodReq(Req(0, write, sector, nblk, count, data))
      modifies qps[did][core]
      ensures Valid() && (ok ==> cid < qd)
      ensures qps[did][core].log.sent ==
        old(qps[did][core].log.sent) + if ok then [Req(cid, write, sector, nblk, count, data)] else []
      ensures old(qps[did][core].TailFree() || qps[did][core].TailPosted(env)) ==> ok
    {
      ok, cid := qps[did][core].Submitting(write, sector, nblk, count, data, env);
    }

    /**
     nvme_read_req and nvme_write_req: the request goes to the queue of its drive and core, with the
     sector on that drive, and its identifier tells both and the slot.
    */
    method Request(write: bool, lba: nat, nblk: nat, core: nat, count: nat, data: seq<Byte>, env: seq<seq<seq<Event>>>)
      returns (ok: bool, rid: nat)
      requires Valid() && core < nc && GoodReq(Req(0, write, DriveSector(lba, nd), nblk, count, data))
      modifies qps[Drive(lba, nd)][core]
      ensures Valid()
      ensures var q := qps[Drive(lba, nd)][core];
        q.log.sent == old(q.log.sent) +
          if ok then [Req(SlotOf(rid), write, DriveSector(lba, nd), nblk, count, data)] else []
      ensures ok ==> HasRid(Drive(lba, nd), core, |old(qps[Drive(lba, nd)][core].log.sent)|, rid)
      // the request is made at once if its slot is free, and after the first look at the ring if it is so by then
      ensures var q := qps[Drive(lba, nd)][core]; old(q.TailFree() || q.TailPosted(env)) ==> ok
    {
      var did, sector := Drive(lba, nd), DriveSector(lba, nd);
      var cid;
      ok, cid := RequestTo(did, write, sector, nblk, core, count, data, env);
      rid := Rid(did, core, cid, qd, nc);
      if ok {
        RidRoundTrips(did, core, cid, qd, nc);
      }
    }

    /** Ticket t of the queue of drive d and core c has completed and been answered. */
    ghost predicate AnsweredAt(d: int, c: int, t: int)
      requires 0 <= d < |qps| && 0 <= c < |qps[d]|
      reads qps[d][c]
    {
      var q := qps[d][c].View();
      Shape(q) && 0 <= t < |q.sent| && q.stage[t] == Reaped && Answered(q, t)
    }

    /** Every request that was given the identifier, on any drive and core, has completed and been answered. */
    ghost predicate AllAnswered(rid: nat)
      reads Queues()
    {
      forall d, c, t :: HasRid(d, c, t, rid) ==> AnsweredAt(d, c, t)
    }

    /** nvme_check once the identifier is taken apart. */
    method CheckAt(did: nat, core: nat, cid: nat, env: seq<seq<Event>>) returns (r: bool)
      requires Valid() && did < nd && core < nc && cid < qd
      modifies qps[did][core]
      ensures Valid()
      ensures r ==> forall t :: 0 <= t < |qps[did][core].log.sent| && qps[did][core].log.sent[t].cid == cid ==>
        AnsweredAt(did, core, t)
      ensures old(PostedIn(Driven(qps[did][core].View(), First(env)), cid)) ==> r
      ensures !r ==> qps[did][core].log.reaped == qps[did][core].log.posted
    {
      ghost var trace;
      r, trace := qps[did][core].Check(cid, env);
    }

    /** The last request in the slot of the identifier is ticket t, and the drive has announced it. */
    ghost predicate AnnouncedAt(d: int, c: int, t: int, rid: nat, env: seq<seq<Event>>)
      requires 0 < qd
      reads Queues()
    {
      && HasRid(d, c, t, rid) && Newest(qps[d][c].View(), SlotOf(rid), t)
      && t in Driven(qps[d][c].View(), First(env)).posted
    }

    lemma AnnouncedPosted(d: int, c: int, t: int, rid: nat, env: seq<seq<Event>>)
      requires Valid() && 0 < nc && AnnouncedAt(d, c, t, rid, env)
      ensures d == DriveOf(rid) && c == CoreOf(rid)
      ensures PostedIn(Driven(qps[d][c].View(), First(env)), SlotOf(rid))
    {
      RidNames(d, c, t, rid);
      DrivenPosts(qps[d][c].View(), First(env));
      assert Newest(Driven(qps[d][c].View(), First(env)), SlotOf(rid), t);
    }

    /** The drive, core and slot nvme_check takes from an identifier. */
    function DriveOf(rid: nat): nat
      requires 0 < qd && 0 < nc
    {
      rid / qd / nc
    }

    function CoreOf(rid: nat): (c: nat)
      requires 0 < qd && 0 < nc
      ensures c < nc
    {
      rid / qd % nc
    }

    function SlotOf(rid: nat): (c: nat)
      requires 0 < qd
      ensures c < qd
    {
      rid % qd
    }

    /** Only the request's own drive, core and slot give its identifier. */
    lemma RidNames(d: int, c: int, t: int, rid: nat)
      requires Valid() && HasRid(d, c, t, rid) && 0 < nc
      ensures d == DriveOf(rid) && c == CoreOf(rid) && qps[d][c].log.sent[t].cid == SlotOf(rid)
    {
      assert qps[d][c].Valid();
      assert Shape(qps[d][c].View());
      RidRoundTrips(d, c, qps[d][c].log.sent[t].cid, qd, nc);
    }

    /**
     nvme_check: a 1 means that every request ever given this identifier has completed, wherever it
     was sent, and that it was answered.
    */
    method Check(rid: nat, env: seq<seq<Event>>) returns (r: bool)
      requires Valid() && 0 < nc && DriveOf(rid) < nd
      modifies qps[DriveOf(rid)][CoreOf(rid)]
      ensures Valid()
      ensures r ==> AllAnswered(rid)
      // and a request announced by the time of the call, if no later one has its slot, is answered 1
      ensures old(exists d, c, t :: AnnouncedAt(d, c, t, rid, env)) ==> r
    {
      if d, c, t :| AnnouncedAt(d, c, t, rid, env) {
        AnnouncedPosted(d, c, t, rid, env);
      }
      r := CheckAt(DriveOf(rid), CoreOf(rid), SlotOf(rid), env);
      forall d, c, t | r && HasRid(d, c, t, rid) ensures AnsweredAt(d, c, t) {
        RidNames(d, c, t, rid);
      }
    }
  }
}
