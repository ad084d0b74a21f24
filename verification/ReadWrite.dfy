/**
 From the requests of mylib/hook.c to the actions of the stack: every request that read_impl or
 write_impl forms is a chunk the stack knows, and the chunks of a read assemble to the contents of
 the whole range.
*/
module ReadWrite {
  import opened Prelude
  import opened Arithmetic
  import opened Addressing
  import BM = BlockMap
  import opened Hook
  import opened Coherence
  import Stack

  /** A good request addresses the sectors of its file offset, and is a chunk of the stack. */
  lemma RequestIsChunk(fs: BM.Fs, f: nat, r: Request, pos: nat, len: nat)
    requires f < |fs.files| && Good(r, fs.files[f], pos, len)
    ensures var off := pos + r.at;
      && Has(fs, f, off) && r.lba == BlockLba(Block(fs, f, off), off)
      && Stack.Aligned(off, r.nblk) && r.len <= r.nblk * SECTOR
  {
  }

  /**
   A write of whole sectors is cut into requests of whole sectors: no request carries stale bytes of its bounce slot.
  */
  lemma WritesWholeSectors(rs: seq<Request>, file: BM.File, pos: nat, len: nat, i: nat)
    requires Tiles(rs, 0, len) && AllGood(rs, file, pos, len) && pos % SECTOR == 0 && len % SECTOR == 0 && i < |rs|
    ensures rs[i].len == rs[i].nblk * SECTOR
  {
    assert Good(rs[i], file, pos, len);
    if i < |rs| - 1 {
      assert Good(rs[i + 1], file, pos, len);
      SectorLength(pos, rs[i].at, rs[i].len, rs[i].nblk, rs[i + 1].at);
    } else {
      SectorLength(pos, rs[i].at, rs[i].len, rs[i].nblk, len);
    }
  }

  lemma SectorLength(pos: nat, at: nat, len: nat, nblk: nat, end: nat)
    requires pos % SECTOR == 0 && (pos + at) % SECTOR == 0 && end == at + len
    requires end % SECTOR == 0 || (pos + end) % SECTOR == 0
    requires len <= nblk * SECTOR < len + SECTOR
    ensures len == nblk * SECTOR
  {
    SubtractMultiples(pos, at, SECTOR);
    if end % SECTOR != 0 {
      SubtractMultiples(pos, end, SECTOR);
    }
    SubtractMultiples(at, len, SECTOR);
    DivModUnique(nblk, 0, SECTOR);
    AddMultiples(len, nblk * SECTOR, SECTOR);
  }

  /** The part of the caller's buffer that request r fills. */
  function Part(buf: seq<Byte>, r: Request): seq<Byte>
    requires r.at + r.len <= |buf|
  {
    buf[r.at..r.at + r.len]
  }

  /** `bytes` are the file contents from offset off on, where there are any. */
  ghost predicate Agrees(bytes: seq<Byte>, off: nat, contents: nat -> Option<Byte>) {
    forall o: nat :: off <= o < off + |bytes| && contents(o).Some? ==> bytes[o - off] == contents(o).value
  }

  /**
   If every request of a read fills its part with the contents of its own range, the buffer holds those of the whole
   range.
  */
  lemma ReadAssembles(rs: seq<Request>, pos: nat, buf: seq<Byte>, contents: nat -> Option<Byte>)
    requires Tiles(rs, 0, |buf|)
    requires forall i :: 0 <= i < |rs| ==>
      rs[i].at + rs[i].len <= |buf| && Agrees(Part(buf, rs[i]), pos + rs[i].at, contents)
    ensures Agrees(buf, pos, contents)
  {
    forall o: nat | pos <= o < pos + |buf| && contents(o).Some? ensures buf[o - pos] == contents(o).value {
      TilesPartition(rs, 0, |buf|, o - pos);
      var i :| 0 <= i < |rs| && Holds(rs[i], o - pos);
      assert Part(buf, rs[i])[o - (pos + rs[i].at)] == buf[o - pos];
    }
  }

  /**
   How one request of a read came about: the actions before it, the state it was issued in, the
   actions until it was reported done, the state in which it was, the actions after that, and the
   queue and ticket it got.
  */
  datatype Issue = Issue(
    before: seq<Stack.Action>, world: Stack.World, until: seq<Stack.Action>, answered: Stack.World,
    later: seq<Stack.Action>, ch: Chan, t: nat)

  /**
   Request r of a read by core c of file f was issued like x, nvme_check has answered 1 for it at some moment,
   and the state is now w.  Its slot may have been taken again in between.
  */
  ghost predicate Completed(x: Issue, c: nat, f: nat, pos: nat, r: Request, w: Stack.World) {
    Stack.ReadDone(
      x.before, x.world, c, f, pos + r.at, r.nblk, r.len, x.until, x.answered, x.later, w, x.ch, x.t)
  }

  lemma CompletedDelivers(x: Issue, c: nat, f: nat, pos: nat, r: Request, w: Stack.World)
    ensures !Completed(x, c, f, pos, r, w) ||
      Stack.Delivers(w, x.ch, x.t, pos + r.at, r.len, Stack.Contents(x.before, f))
  {
  }

  /** Its destination holds the bytes `part`. */
  ghost predicate Filled(w: Stack.World, ch: Chan, t: nat, part: seq<Byte>) {
    ch in w.qps && t in w.qps[ch].mem && part == w.qps[ch].mem[t]
  }

  /** When the request was issued, the contents of the range were the given ones. */
  ghost predicate Held(before: seq<Stack.Action>, f: nat, pos: nat, len: nat, contents: nat -> Option<Byte>) {
    forall o: nat :: pos <= o < pos + len ==> Stack.LastWritten(before, f, o) == contents(o)
  }

  lemma DeliveredAgrees(
    w: Stack.World, ch: Chan, t: nat, off: nat, len: nat, before: seq<Stack.Action>, f: nat, pos: nat, n: nat,
    contents: nat -> Option<Byte>, part: seq<Byte>)
    requires Stack.Delivers(w, ch, t, off, len, Stack.Contents(before, f))
    requires Held(before, f, pos, n, contents) && pos <= off && off + len <= pos + n && Filled(w, ch, t, part)
    ensures Agrees(part, off, contents)
  {
    var written := Stack.Contents(before, f);
    assert Stack.Delivers(w, ch, t, off, len, written);
    forall o: nat | off <= o < off + len && contents(o).Some? ensures part[o - off] == contents(o).value {
      assert written(o) == contents(o);
    }
  }

  /**
   Request r has completed and filled its part of the buffer, and found the contents of the range
   unchanged when it was issued; so its part agrees with them.
  */
  ghost predicate Serves(
    x: Issue, c: nat, f: nat, pos: nat, r: Request, w: Stack.World, buf: seq<Byte>, contents: nat -> Option<Byte>)
    ensures Serves(x, c, f, pos, r, w, buf, contents) ==>
      r.at + r.len <= |buf| && Agrees(Part(buf, r), pos + r.at, contents)
  {
    CompletedDelivers(x, c, f, pos, r, w);
    DeliveredServes(x, f, pos, r, w, buf, contents);
    && r.at + r.len <= |buf| && Completed(x, c, f, pos, r, w)
    && Filled(w, x.ch, x.t, Part(buf, r)) && Held(x.before, f, pos, |buf|, contents)
  }

  lemma DeliveredServes(
    x: Issue, f: nat, pos: nat, r: Request, w: Stack.World, buf: seq<Byte>, contents: nat -> Option<Byte>)
    ensures
      r.at + r.len <= |buf| && Stack.Delivers(w, x.ch, x.t, pos + r.at, r.len, Stack.Contents(x.before, f))
      && Filled(w, x.ch, x.t, Part(buf, r)) && Held(x.before, f, pos, |buf|, contents) ==>
      Agrees(Part(buf, r), pos + r.at, contents)
  {
    if r.at + r.len <= |buf| && Stack.Delivers(w, x.ch, x.t, pos + r.at, r.len, Stack.Contents(x.before, f))
       && Filled(w, x.ch, x.t, Part(buf, r)) && Held(x.before, f, pos, |buf|, contents) {
      DeliveredAgrees(w, x.ch, x.t, pos + r.at, r.len, x.before, f, pos, |buf|, contents, Part(buf, r));
    }
  }

  /**
   A whole read_impl: its requests tile the range and may be issued at different moments, between
   which anything may happen that leaves the contents of the range alone.  Once all are reported
   done, the buffer holds for every offset of the range the byte last written there.
  */
  lemma RangeReadReturnsLastWritten(
    rs: seq<Request>, xs: seq<Issue>, c: nat, f: nat, pos: nat, w: Stack.World, buf: seq<Byte>,
    contents: nat -> Option<Byte>)
    requires Tiles(rs, 0, |buf|) && |xs| == |rs|
    requires forall i :: 0 <= i < |rs| ==> Serves(xs[i], c, f, pos, rs[i], w, buf, contents)
    ensures Agrees(buf, pos, contents)
  {
    ReadAssembles(rs, pos, buf, contents);
  }

  // ---------------------------------------------------------------- writing a range

  /** The chunk write that request r of a write of `data` at `pos` stands for. */
  function WriteAction(c: nat, f: nat, pos: nat, data: seq<Byte>, r: Request): Stack.Action
    requires r.at + r.len <= |data|
  {
    Stack.Write(c, f, pos + r.at, Part(data, r))
  }

  /** The chunk writes of write_impl are ones the stack accepts: whole sectors inside one stripe unit. */
  lemma WriteIsChunk(rs: seq<Request>, file: BM.File, pos: nat, data: seq<Byte>, i: nat)
    requires Tiles(rs, 0, |data|) && AllGood(rs, file, pos, |data|) && pos % SECTOR == 0 && |data| % SECTOR == 0
      && i < |rs|
    ensures rs[i].at + rs[i].len <= |data|
    ensures var part := Part(data, rs[i]);
      |part| % SECTOR == 0 && |part| / SECTOR == rs[i].nblk && Stack.Aligned(pos + rs[i].at, rs[i].nblk)
  {
    TilesInside(rs, 0, |data|, i);
    WritesWholeSectors(rs, file, pos, |data|, i);
    assert Good(rs[i], file, pos, |data|);
    DivModUnique(rs[i].nblk, 0, SECTOR);
  }

  predicate WritesAt(a: Stack.Action, f: nat, o: nat) {
    a.Write? && a.f == f && a.off <= o < a.off + |a.data|
  }

  /** Action a leaves file f in being and writes into the range nothing but `data`. */
  predicate Consistent(a: Stack.Action, f: nat, pos: nat, data: seq<Byte>) {
    && (a.Drop? ==> a.f != f)
    && (forall o: nat :: WritesAt(a, f, o) && pos <= o < pos + |data| ==> a.data[o - a.off] == data[o - pos])
  }

  lemma PartConsistent(c: nat, f: nat, pos: nat, data: seq<Byte>, r: Request)
    requires r.at + r.len <= |data|
    ensures Consistent(WriteAction(c, f, pos, data, r), f, pos, data)
  {
    var part := Part(data, r);
    forall i | 0 <= i < |part| ensures part[i] == data[r.at + i] {
    }
  }

  predicate AllConsistent(acts: seq<Stack.Action>, f: nat, pos: nat, data: seq<Byte>) {
    forall k :: 0 <= k < |acts| ==> Consistent(acts[k], f, pos, data)
  }

  /** If something wrote offset o, and nobody anything else than `data`, the contents there are those of `data`. */
  lemma {:induction false} ConsistentLast(
    before: seq<Stack.Action>, acts: seq<Stack.Action>, f: nat, pos: nat, data: seq<Byte>, o: nat, k: nat)
    requires AllConsistent(acts, f, pos, data) && pos <= o < pos + |data| && k < |acts| && WritesAt(acts[k], f, o)
    ensures Stack.LastWritten(before + acts, f, o) == Some(data[o - pos])
    decreases |acts|
  {
    var n := |acts| - 1;
    var a, all := acts[n], before + acts;
    assert all[..|all| - 1] == before + acts[..n] && all[|all| - 1] == a;
    assert Consistent(a, f, pos, data);
    if !WritesAt(a, f, o) {
      assert acts[..n][k] == acts[k];
      ConsistentLast(before, acts[..n], f, pos, data, o, k);
    }
  }

  /** Since the actions `acts`, the range holds `data`. */
  ghost predicate Wrote(acts: seq<Stack.Action>, f: nat, pos: nat, data: seq<Byte>) {
    forall o: nat :: pos <= o < pos + |data| ==> Stack.LastWritten(acts, f, o) == Some(data[o - pos])
  }

  /**
   A whole write_impl: its requests tile the range and are issued in any order, between which anything
   may happen that does not unlink the file or write other data into the range.  Once all have been
   issued the contents of the range are the data written.
  */
  lemma RangeWriteIsLastWritten(
    before: seq<Stack.Action>, acts: seq<Stack.Action>, rs: seq<Request>, c: nat, f: nat, pos: nat, data: seq<Byte>)
    requires Tiles(rs, 0, |data|) && AllConsistent(acts, f, pos, data)
    requires forall i :: 0 <= i < |rs| ==> rs[i].at + rs[i].len <= |data| && WriteAction(c, f, pos, data, rs[i]) in acts
    ensures Wrote(before + acts, f, pos, data)
  {
    forall o: nat | pos <= o < pos + |data| ensures Stack.LastWritten(before + acts, f, o) == Some(data[o - pos]) {
      TilesPartition(rs, 0, |data|, o - pos);
      var i :| 0 <= i < |rs| && Holds(rs[i], o - pos);
      var k :| 0 <= k < |acts| && acts[k] == WriteAction(c, f, pos, data, rs[i]);
      ConsistentLast(before, acts, f, pos, data, o, k);
    }
  }

  /** The chunk writes of a whole write, in the order write_impl issues them. */
  function WriteActions(c: nat, f: nat, pos: nat, data: seq<Byte>, rs: seq<Request>): seq<Stack.Action>
    requires forall i :: 0 <= i < |rs| ==> rs[i].at + rs[i].len <= |data|
  {
    seq(|rs|, i requires 0 <= i < |rs| => WriteAction(c, f, pos, data, rs[i]))
  }

  /** With nothing in between, a whole write leaves its data in the range, whatever happened before. */
  lemma WriteAlone(before: seq<Stack.Action>, rs: seq<Request>, c: nat, f: nat, pos: nat, data: seq<Byte>)
    requires Tiles(rs, 0, |data|)
    ensures forall i :: 0 <= i < |rs| ==> rs[i].at + rs[i].len <= |data|
    ensures AllConsistent(WriteActions(c, f, pos, data, rs), f, pos, data)
    ensures Wrote(before + WriteActions(c, f, pos, data, rs), f, pos, data)
  {
    forall i | 0 <= i < |rs| ensures rs[i].at + rs[i].len <= |data| {
      TilesInside(rs, 0, |data|, i);
    }
    var acts := WriteActions(c, f, pos, data, rs);
    forall k | 0 <= k < |acts| ensures Consistent(acts[k], f, pos, data) {
      PartConsistent(c, f, pos, data, rs[k]);
    }
    assert forall i :: 0 <= i < |rs| ==> acts[i] == WriteAction(c, f, pos, data, rs[i]);
    RangeWriteIsLastWritten(before, acts, rs, c, f, pos, data);
  }

  /** The contents of a range that holds `data`. */
  function Holding(pos: nat, data: seq<Byte>): nat -> Option<Byte> {
    (o: nat) => if pos <= o < pos + |data| then Some(data[o - pos]) else None
  }

  lemma WroteIsHeld(acts: seq<Stack.Action>, f: nat, pos: nat, data: seq<Byte>, len: nat)
    requires Wrote(acts, f, pos, data) && len == |data|
    ensures Held(acts, f, pos, len, Holding(pos, data))
  {
  }

  /** Request r of a read was issued while the range held `data`, has completed and filled its part of the buffer. */
  ghost predicate ReadsBack(
    x: Issue, c: nat, f: nat, pos: nat, r: Request, w: Stack.World, buf: seq<Byte>, data: seq<Byte>)
    requires |buf| == |data|
    ensures ReadsBack(x, c, f, pos, r, w, buf, data) ==>
      r.at + r.len <= |buf| && Agrees(Part(buf, r), pos + r.at, Holding(pos, data))
  {
    CompletedDelivers(x, c, f, pos, r, w);
    DeliveredBack(x, f, pos, r, w, buf, data);
    && r.at + r.len <= |buf| && Completed(x, c, f, pos, r, w)
    && Filled(w, x.ch, x.t, Part(buf, r)) && Wrote(x.before, f, pos, data)
  }

  lemma DeliveredBack(x: Issue, f: nat, pos: nat, r: Request, w: Stack.World, buf: seq<Byte>, data: seq<Byte>)
    requires |buf| == |data|
    ensures
      r.at + r.len <= |buf| && Stack.Delivers(w, x.ch, x.t, pos + r.at, r.len, Stack.Contents(x.before, f))
      && Filled(w, x.ch, x.t, Part(buf, r)) && Wrote(x.before, f, pos, data) ==>
      Agrees(Part(buf, r), pos + r.at, Holding(pos, data))
  {
    if Wrote(x.before, f, pos, data) {
      WroteIsHeld(x.before, f, pos, data, |buf|);
      DeliveredServes(x, f, pos, r, w, buf, Holding(pos, data));
    }
  }

  lemma HoldingIsData(buf: seq<Byte>, pos: nat, data: seq<Byte>)
    requires |buf| == |data| && Agrees(buf, pos, Holding(pos, data))
    ensures buf == data
  {
    var contents := Holding(pos, data);
    forall i | 0 <= i < |data| ensures buf[i] == data[i] {
      assert contents(pos + i) == Some(data[i]);
    }
  }

  /** Reading a range back: if every request was issued while the range held `data`, the buffer is `data`. */
  lemma ReadAfterWrite(
    rs: seq<Request>, xs: seq<Issue>, c: nat, f: nat, pos: nat, w: Stack.World, buf: seq<Byte>, data: seq<Byte>)
    requires Tiles(rs, 0, |buf|) && |xs| == |rs| && |buf| == |data|
    requires forall i :: 0 <= i < |rs| ==> ReadsBack(xs[i], c, f, pos, rs[i], w, buf, data)
    ensures buf == data
  {
    ReadAssembles(rs, pos, buf, Holding(pos, data));
    HoldingIsData(buf, pos, data);
  }
}
