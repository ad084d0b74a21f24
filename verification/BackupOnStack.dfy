/**
 Backup and restore over the whole storage stack: the units that abt_backup reads and writes are chunks of
 files, so a restored file holds again what it held at backup time, through queues, striping and
 drives.
*/
module BackupOnStack {
  import opened Prelude
  import opened Arithmetic
  import opened Addressing
  import opened Hook
  import opened ReadWrite
  import opened Coherence
  import BM = BlockMap
  import Backup
  import Stack

  /** The file offset of buffer j of block i. */
  function UnitOffset(i: nat, j: nat): nat { i * BLOCK_SIZE + UNIT * j }

  /** The sector append and parse compute for buffer j of block i is that of its file offset. */
  lemma UnitAddress(fs: BM.Fs, f: nat, i: nat, j: nat)
    requires f < |fs.files| && BM.Mapped(fs.files[f]) && i < fs.files[f].nblock && j < Backup.DEG
    ensures var off := UnitOffset(i, j);
      && Has(fs, f, off) && Block(fs, f, off) == fs.files[f].block[i]
      && BlockLba(Block(fs, f, off), off) == Backup.Base(fs.files[f].block[i]) + Backup.BUF * j
      && Stack.Aligned(off, Backup.BUF)
  {
    DivModUnique(i, UNIT * j, BLOCK_SIZE);
    UnitSectors(fs.files[f].block[i], j);
    RemainderShift(i * 512 + j, 0, UNIT);
    RemainderShift(i * 4096 + 8 * j, 0, SECTOR);
  }

  lemma UnitSectors(block: nat, j: nat)
    ensures (block * BLOCK_SIZE + UNIT * j) / SECTOR == Backup.Base(block) + Backup.BUF * j
  {
    DivModUnique(block * 4096 + 8 * j, 0, SECTOR);
  }

  /**
   The requests both programs make for a file of n units, in the order they make them; UnitAddress gives their
   sectors.
  */
  function Units(n: nat): (rs: seq<Request>)
    ensures |rs| == n
  {
    seq(n, k requires 0 <= k => Request(0, Backup.BUF, UNIT, UNIT * k))
  }

  lemma UnitsTile(n: nat)
    ensures Tiles(Units(n), 0, UNIT * n)
  {
  }

  /** The n units of file f were saved while its contents were the given ones, and each read was reported done. */
  ghost predicate SavedUnits(
    n: nat, xs: seq<Issue>, c: nat, f: nat, w: Stack.World, saved: seq<Byte>, contents: nat -> Option<Byte>)
  {
    && |saved| == UNIT * n && |xs| == n
    && forall k :: 0 <= k < n ==> Serves(xs[k], c, f, 0, Units(n)[k], w, saved, contents)
  }

  /** The actions contain the writes of a restore, and nothing else that touches what they write. */
  ghost predicate Restores(acts: seq<Stack.Action>, n: nat, c: nat, f: nat, saved: seq<Byte>)
    requires |saved| == UNIT * n
  {
    && AllConsistent(acts, f, 0, saved)
    && forall k :: 0 <= k < n ==> UNIT * k + UNIT <= |saved| && WriteAction(c, f, 0, saved, Units(n)[k]) in acts
  }

  /**
   The round trip over the stack.  Backup saved the units of file f; restore wrote them back, after
   anything whatever had happened, and nothing else has written the file since.  Then every offset that
   had contents at backup time has them again.
  */
  lemma RestoredContents(
    n: nat, xs: seq<Issue>, c: nat, f: nat, w: Stack.World, saved: seq<Byte>, contents: nat -> Option<Byte>,
    before: seq<Stack.Action>, acts: seq<Stack.Action>)
    requires SavedUnits(n, xs, c, f, w, saved, contents) && Restores(acts, n, c, f, saved)
    ensures forall o: nat :: o < |saved| && contents(o).Some? ==> Stack.LastWritten(before + acts, f, o) == contents(o)
  {
    SavedAgrees(n, xs, c, f, w, saved, contents);
    RestoreWrites(n, c, f, saved, before, acts);
    SavedIsWritten(before + acts, f, saved, contents);
  }

  lemma SavedAgrees(
    n: nat, xs: seq<Issue>, c: nat, f: nat, w: Stack.World, saved: seq<Byte>, contents: nat -> Option<Byte>)
    requires SavedUnits(n, xs, c, f, w, saved, contents)
    ensures Agrees(saved, 0, contents)
  {
    UnitsTile(n);
    RangeReadReturnsLastWritten(Units(n), xs, c, f, 0, w, saved, contents);
  }

  lemma RestoreWrites(n: nat, c: nat, f: nat, saved: seq<Byte>, before: seq<Stack.Action>, acts: seq<Stack.Action>)
    requires |saved| == UNIT * n && Restores(acts, n, c, f, saved)
    ensures Wrote(before + acts, f, 0, saved)
  {
    UnitsTile(n);
    RangeWriteIsLastWritten(before, acts, Units(n), c, f, 0, saved);
  }

  /**
   A read of core d was issued in a run whose actions from `cut` on contain such a restore and leave its data
   alone; it was reported done and filled part of buf.
  */
  ghost predicate ReadsRestored(
    y: Issue, cut: nat, d: nat, f: nat, r: Request, w: Stack.World, buf: seq<Byte>, n: nat, c: nat, saved: seq<Byte>)
    requires |saved| == UNIT * n
  {
    && cut <= |y.before| && Restores(y.before[cut..], n, c, f, saved)
    && r.at + r.len <= |buf| && Completed(y, d, f, 0, r, w) && Filled(w, y.ch, y.t, Part(buf, r))
  }

  /**
   The round trip as a reader sees it: whoever reads the file after the restore, through any core, gets
   for every offset the contents of backup time.  The n reads may be issued and reported done one after
   the other, each with its own past.
  */
  lemma RestoredReads(
    n: nat, xs: seq<Issue>, c: nat, f: nat, w: Stack.World, saved: seq<Byte>, contents: nat -> Option<Byte>,
    ys: seq<Issue>, cuts: seq<nat>, d: nat, w2: Stack.World, buf: seq<Byte>)
    requires SavedUnits(n, xs, c, f, w, saved, contents) && |ys| == |cuts| == n && |buf| == |saved|
    requires forall k :: 0 <= k < n ==> ReadsRestored(ys[k], cuts[k], d, f, Units(n)[k], w2, buf, n, c, saved)
    ensures buf == saved && Agrees(buf, 0, contents)
  {
    SavedAgrees(n, xs, c, f, w, saved, contents);
    forall k | 0 <= k < n ensures ReadsBack(ys[k], d, f, 0, Units(n)[k], w2, buf, saved) {
      RestoredReadsBack(ys[k], cuts[k], d, f, Units(n)[k], w2, buf, n, c, saved);
    }
    UnitsTile(n);
    ReadAfterWrite(Units(n), ys, d, f, 0, w2, buf, saved);
  }

  lemma RestoredReadsBack(
    y: Issue, cut: nat, d: nat, f: nat, r: Request, w: Stack.World, buf: seq<Byte>, n: nat, c: nat, saved: seq<Byte>)
    requires |saved| == UNIT * n == |buf| && ReadsRestored(y, cut, d, f, r, w, buf, n, c, saved)
    ensures ReadsBack(y, d, f, 0, r, w, buf, saved)
  {
    RestoredSince(y.before, cut, n, c, f, saved);
  }

  lemma RestoredSince(before: seq<Stack.Action>, cut: nat, n: nat, c: nat, f: nat, saved: seq<Byte>)
    requires |saved| == UNIT * n && cut <= |before| && Restores(before[cut..], n, c, f, saved)
    ensures Wrote(before, f, 0, saved)
  {
    assert before == before[..cut] + before[cut..];
    RestoreWrites(n, c, f, saved, before[..cut], before[cut..]);
  }

  lemma SavedIsWritten(acts: seq<Stack.Action>, f: nat, saved: seq<Byte>, contents: nat -> Option<Byte>)
    requires Wrote(acts, f, 0, saved) && Agrees(saved, 0, contents)
    ensures forall o: nat :: o < |saved| && contents(o).Some? ==> Stack.LastWritten(acts, f, o) == contents(o)
  {
    forall o: nat | o < |saved| && contents(o).Some? ensures Stack.LastWritten(acts, f, o) == contents(o) {
      assert Stack.LastWritten(acts, f, o) == Some(saved[o - 0]);
      assert saved[o - 0] == contents(o).value;
    }
  }
}
