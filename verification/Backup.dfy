/**
 The backup and restore programs of abt_backup: every block of every named file is copied, in table
 order, to a stream, and later from the stream back to the drives.

 Drives are seen here as a map from sectors to their contents, the view Stack proves for awaited
 requests.  The stream is an ordinary file: opened without truncation, written and read
 sequentially, a read at its end coming back short.
*/
module Backup {
  import opened Prelude
  import opened Sequences
  import opened Addressing
  import opened BlockMap

  type Sector = seq<Byte>

  const DEG := 512
  /** Sectors of one buffer (BUF_SIZE). */
  const BUF := 8

  function Put(at: nat -> Sector, lba: nat, b: seq<Sector>): nat -> Sector {
    (s: nat) => if lba <= s < lba + |b| then b[s - lba] else at(s)
  }

  /** The n sectors from lba on. */
  function Extent(at: nat -> Sector, lba: nat, n: nat): (r: seq<Sector>)
    ensures |r| == n && forall k :: 0 <= k < n ==> r[k] == at(lba + k)
  {
    seq(n, k requires 0 <= k => at(lba + k))
  }

  class Drives {
    var at: nat -> Sector

    method Read(lba: nat, n: nat) returns (b: seq<Sector>)
      ensures b == Extent(at, lba, n)
    {
      b := Extent(at, lba, n);
    }

    method Write(lba: nat, b: seq<Sector>)
      modifies this
      ensures at == Put(old(at), lba, b)
    {
      at := Put(at, lba, b);
    }
  }

  class Stream {
    var data: seq<Sector>
    var pos: nat

    method Write(b: seq<Sector>)
      requires pos <= |data|
      modifies this
      ensures pos == old(pos) + |b| <= |data| && data[..pos] == old(data[..pos]) + b
    {
      data := data[..pos] + b + if pos + |b| <= |data| then data[pos + |b|..] else [];
      pos := pos + |b|;
    }

    method Read(n: nat) returns (b: seq<Sector>)
      requires pos <= |data|
      modifies `pos
      ensures pos == (if old(pos) + n <= |data| then old(pos) + n else |data|) && b == data[old(pos)..pos]
    {
      var end := if pos + n <= |data| then pos + n else |data|;
      b, pos := data[pos..end], end;
    }
  }

  // ---------------------------------------------------------------- what the stream is to hold

  const BLOCK_SECTORS := BLOCK_SIZE / SECTOR

  /** The first sector of a block, as both programs compute it. */
  function Base(block: nat): (lba: nat)
    ensures lba == block * BLOCK_SECTORS
  {
    block * BLOCK_SIZE / SECTOR
  }

  /** The first k blocks of a file. */
  function FileImage(at: nat -> Sector, file: File, k: nat): (r: seq<Sector>)
    requires Mapped(file) && k <= file.nblock
    ensures |r| == k * BLOCK_SECTORS
  {
    if k == 0 then [] else FileImage(at, file, k - 1) + Extent(at, Base(file.block[k - 1]), BLOCK_SECTORS)
  }

  predicate AllMapped(files: seq<File>) {
    forall i :: 0 <= i < |files| ==> Mapped(files[i])
  }

  /** The named ones of the first i files. */
  function Image(at: nat -> Sector, files: seq<File>, i: nat): seq<Sector>
    requires AllMapped(files) && i <= |files|
  {
    if i == 0 then []
    else
      var file := files[i - 1];
      Image(at, files, i - 1) + if file.name != "" then FileImage(at, file, file.nblock) else []
  }

  // ---------------------------------------------------------------- backup

  /** The request loops of append: fill all buffers from the block at base. */
  method ReadBlock(drives: Drives, base: nat) returns (buf: seq<seq<Sector>>)
    ensures |buf| == DEG && forall j :: 0 <= j < DEG ==> buf[j] == Extent(drives.at, base + BUF * j, BUF)
  {
    buf := seq(DEG, _ => []);
    var offset := 0;
    while offset < BLOCK_SECTORS
      invariant |buf| == DEG && offset in {0, BLOCK_SECTORS}
      invariant offset != 0 ==> forall j :: 0 <= j < DEG ==> buf[j] == Extent(drives.at, base + BUF * j, BUF)
      decreases BLOCK_SECTORS - offset
    {
      for j := 0 to DEG
        invariant |buf| == DEG
        invariant forall i :: 0 <= i < j ==> buf[i] == Extent(drives.at, base + BUF * i, BUF)
      {
        var b := drives.Read(base + offset + BUF * j, BUF);
        buf := buf[j := b];
      }
      offset := offset + BUF * DEG;
    }
  }

  /** The loop of append that awaits the requests and writes the buffers out. */
  method WriteOut(ssd: Stream, buf: seq<seq<Sector>>, ghost at: nat -> Sector, ghost base: nat)
    requires ssd.pos <= |ssd.data|
    requires |buf| == DEG && forall j :: 0 <= j < DEG ==> buf[j] == Extent(at, base + BUF * j, BUF)
    modifies ssd
    ensures ssd.pos <= |ssd.data|
    ensures ssd.data[..ssd.pos] == old(ssd.data[..ssd.pos]) + Extent(at, base, BLOCK_SECTORS)
  {
    ghost var start := ssd.data[..ssd.pos];
    for j := 0 to DEG
      invariant ssd.pos <= |ssd.data| && ssd.data[..ssd.pos] == start + Extent(at, base, BUF * j)
    {
      ssd.Write(buf[j]);
      assert Extent(at, base, BUF * (j + 1)) == Extent(at, base, BUF * j) + Extent(at, base + BUF * j, BUF);
    }
  }

  /** append: the blocks of one file. */
  method Append(drives: Drives, ssd: Stream, file: File)
    requires Mapped(file) && ssd.pos <= |ssd.data|
    modifies ssd
    ensures ssd.pos <= |ssd.data|
    ensures ssd.data[..ssd.pos] == old(ssd.data[..ssd.pos]) + FileImage(drives.at, file, file.nblock)
  {
    ghost var start := ssd.data[..ssd.pos];
    for i := 0 to file.nblock
      invariant ssd.pos <= |ssd.data|
      invariant ssd.data[..ssd.pos] == start + FileImage(drives.at, file, i)
    {
      var base := Base(file.block[i]);
      var buf := ReadBlock(drives, base);
      WriteOut(ssd, buf, drives.at, base);
    }
  }

  /** The file loop of the backup program: the stream begins with the image of all named files. */
  method Save(drives: Drives, ssd: Stream, files: seq<File>)
    requires AllMapped(files) && ssd.pos == 0
    modifies ssd
    ensures ssd.pos <= |ssd.data| && ssd.data[..ssd.pos] == Image(drives.at, files, |files|)
  {
    for i := 0 to |files|
      invariant ssd.pos <= |ssd.data| && ssd.data[..ssd.pos] == Image(drives.at, files, i)
    {
      if files[i].name != "" {
        Append(drives, ssd, files[i]);
      }
    }
  }

  // ---------------------------------------------------------------- restore

  /** Sector s belongs to one of the first k blocks of a file. */
  ghost predicate InFile(file: File, k: nat, s: nat)
    requires Mapped(file) && k <= file.nblock
  {
    exists j :: 0 <= j < k && Base(file.block[j]) <= s < Base(file.block[j]) + BLOCK_SECTORS
  }

  /** Sector s belongs to a block of a named one of the first i files. */
  ghost predicate Allocated(files: seq<File>, i: nat, s: nat)
    requires AllMapped(files) && i <= |files|
  {
    exists f :: 0 <= f < i && files[f].name != "" && InFile(files[f], files[f].nblock, s)
  }

  /** The reading loop of parse; a short read leaves the end of its buffer as it was. */
  method ReadIn(ssd: Stream) returns (buf: seq<seq<Sector>>)
    requires ssd.pos <= |ssd.data|
    modifies ssd`pos
    ensures |buf| == DEG && old(ssd.pos) <= ssd.pos <= |ssd.data|
    ensures old(ssd.pos) + BLOCK_SECTORS <= |ssd.data| ==>
      && ssd.pos == old(ssd.pos) + BLOCK_SECTORS
      && forall j :: 0 <= j < DEG ==> buf[j] == ssd.data[old(ssd.pos) + BUF * j..old(ssd.pos) + BUF * j + BUF]
  {
    buf := seq(DEG, _ => seq(BUF, _ => []));
    for j := 0 to DEG
      invariant |buf| == DEG && (forall i :: 0 <= i < DEG ==> |buf[i]| == BUF) && old(ssd.pos) <= ssd.pos <= |ssd.data|
      invariant old(ssd.pos) + BLOCK_SECTORS <= |ssd.data| ==>
        && ssd.pos == old(ssd.pos) + BUF * j
        && forall i :: 0 <= i < j ==> buf[i] == ssd.data[old(ssd.pos) + BUF * i..old(ssd.pos) + BUF * i + BUF]
    {
      var b := ssd.Read(BUF);
      buf := buf[j := b + buf[j][|b|..]];
    }
  }

  /** One request of parse. */
  method WriteBuffer(drives: Drives, lba: nat, b: seq<Sector>, ghost saved: nat -> Sector)
    requires b == Extent(saved, lba, BUF)
    modifies drives
    ensures forall s: nat :: drives.at(s) == if lba <= s < lba + BUF then saved(s) else old(drives.at)(s)
  {
    drives.Write(lba, b);
    forall s: nat ensures drives.at(s) == if lba <= s < lba + BUF then saved(s) else old(drives.at)(s) {
      assert lba <= s < lba + BUF ==> b[s - lba] == saved(lba + (s - lba));
    }
  }

  /** The inner request loop of parse. */
  method WriteBuffers(drives: Drives, base: nat, buf: seq<seq<Sector>>, ghost saved: nat -> Sector)
    requires |buf| == DEG && forall j :: 0 <= j < DEG ==> buf[j] == Extent(saved, base + BUF * j, BUF)
    modifies drives
    ensures forall s: nat :: drives.at(s) == if base <= s < base + BLOCK_SECTORS then saved(s) else old(drives.at)(s)
  {
    for j := 0 to DEG
      invariant forall s: nat :: drives.at(s) == if base <= s < base + BUF * j then saved(s) else old(drives.at)(s)
    {
      WriteBuffer(drives, base + BUF * j, buf[j], saved);
    }
  }

  /** The request loops of parse: write all buffers to the block at base. */
  method WriteBlock(drives: Drives, base: nat, buf: seq<seq<Sector>>, ghost saved: nat -> Sector)
    requires |buf| == DEG && forall j :: 0 <= j < DEG ==> buf[j] == Extent(saved, base + BUF * j, BUF)
    modifies drives
    ensures forall s: nat :: drives.at(s) == if base <= s < base + BLOCK_SECTORS then saved(s) else old(drives.at)(s)
  {
    var offset := 0;
    while offset < BLOCK_SECTORS
      invariant offset in {0, BLOCK_SECTORS}
      invariant forall s: nat :: drives.at(s) == if base <= s < base + offset then saved(s) else old(drives.at)(s)
      decreases BLOCK_SECTORS - offset
    {
      WriteBuffers(drives, base + offset, buf, saved);
      offset := offset + BUF * DEG;
    }
  }

  lemma BufferHolds(data: seq<Sector>, p: nat, saved: nat -> Sector, base: nat, j: nat)
    requires p + BLOCK_SECTORS <= |data| && data[p..p + BLOCK_SECTORS] == Extent(saved, base, BLOCK_SECTORS) && j < DEG
    ensures data[p + BUF * j..p + BUF * j + BUF] == Extent(saved, base + BUF * j, BUF)
  {
    var all := data[p..p + BLOCK_SECTORS];
    var part := data[p + BUF * j..p + BUF * j + BUF];
    forall k | 0 <= k < |part| ensures part[k] == saved(base + BUF * j + k) {
      assert all[BUF * j + k] == data[p + BUF * j + k];
    }
  }

  /** One block: from the stream to the drives. */
  method RestoreBlock(drives: Drives, ssd: Stream, base: nat, ghost saved: nat -> Sector)
    requires ssd.pos + BLOCK_SECTORS <= |ssd.data|
    requires ssd.data[ssd.pos..ssd.pos + BLOCK_SECTORS] == Extent(saved, base, BLOCK_SECTORS)
    modifies drives, ssd`pos
    ensures ssd.pos == old(ssd.pos) + BLOCK_SECTORS
    ensures forall s: nat :: drives.at(s) == if base <= s < base + BLOCK_SECTORS then saved(s) else old(drives.at)(s)
  {
    ghost var p := ssd.pos;
    var buf := ReadIn(ssd);
    forall j | 0 <= j < DEG ensures buf[j] == Extent(saved, base + BUF * j, BUF) {
      BufferHolds(ssd.data, p, saved, base, j);
    }
    WriteBlock(drives, base, buf, saved);
  }

  lemma {:induction false} FileImagePrefix(at: nat -> Sector, file: File, k: nat, n: nat)
    requires Mapped(file) && k <= n <= file.nblock
    ensures FileImage(at, file, k) <= FileImage(at, file, n)
  {
    if k < n {
      FileImagePrefix(at, file, k, n - 1);
    }
  }

  /** The data begins with the image of the first i files. */
  ghost predicate Begins(at: nat -> Sector, files: seq<File>, i: nat, data: seq<Sector>)
    requires AllMapped(files) && i <= |files|
  {
    Image(at, files, i) <= data
  }

  lemma BeginsBefore(at: nat -> Sector, files: seq<File>, i: nat, data: seq<Sector>)
    requires AllMapped(files) && i < |files| && Begins(at, files, i + 1, data)
    ensures Begins(at, files, i, data)
  {
    PrefixExtends(Image(at, files, i), Image(at, files, i + 1), data);
  }

  lemma {:induction false} BeginsEarlier(at: nat -> Sector, files: seq<File>, i: nat, n: nat, data: seq<Sector>)
    requires AllMapped(files) && i <= n <= |files| && Begins(at, files, n, data)
    ensures Begins(at, files, i, data)
  {
    if i < n {
      BeginsBefore(at, files, n - 1, data);
      BeginsEarlier(at, files, i, n - 1, data);
    }
  }

  /** Where the k-th block of a file stands in the stream. */
  lemma BlockInStream(at: nat -> Sector, file: File, k: nat, data: seq<Sector>, p: nat)
    requires Mapped(file) && k < file.nblock
    requires p + file.nblock * BLOCK_SECTORS <= |data|
    requires data[p..p + file.nblock * BLOCK_SECTORS] == FileImage(at, file, file.nblock)
    ensures var q := p + k * BLOCK_SECTORS;
      q + BLOCK_SECTORS <= |data| && data[q..q + BLOCK_SECTORS] == Extent(at, Base(file.block[k]), BLOCK_SECTORS)
  {
    var a, b := FileImage(at, file, k), Extent(at, Base(file.block[k]), BLOCK_SECTORS);
    var all := FileImage(at, file, file.nblock);
    FileImagePrefix(at, file, k + 1, file.nblock);
    assert FileImage(at, file, k + 1) == a + b;
    PrefixMiddle(a, b, all);
    SliceOfSlice(data, p, p + |all|, |a|, |a| + |b|);
  }

  /** parse: the blocks of one file. */
  method Parse(drives: Drives, ssd: Stream, file: File, ghost saved: nat -> Sector)
    requires Mapped(file) && ssd.pos + file.nblock * BLOCK_SECTORS <= |ssd.data|
    requires ssd.data[ssd.pos..ssd.pos + file.nblock * BLOCK_SECTORS] == FileImage(saved, file, file.nblock)
    modifies drives, ssd`pos
    ensures ssd.pos == old(ssd.pos) + file.nblock * BLOCK_SECTORS
    ensures forall s: nat :: drives.at(s) == if InFile(file, file.nblock, s) then saved(s) else old(drives.at)(s)
  {
    ghost var p := ssd.pos;
    for i := 0 to file.nblock
      invariant ssd.pos == p + i * BLOCK_SECTORS
      invariant forall s: nat :: drives.at(s) == if InFile(file, i, s) then saved(s) else old(drives.at)(s)
    {
      BlockInStream(saved, file, i, ssd.data, p);
      RestoreBlock(drives, ssd, Base(file.block[i]), saved);
    }
  }

  lemma FileInStream(at: nat -> Sector, files: seq<File>, i: nat, data: seq<Sector>)
    requires AllMapped(files) && i < |files| && files[i].name != "" && Begins(at, files, |files|, data)
    ensures var p, image := |Image(at, files, i)|, FileImage(at, files[i], files[i].nblock);
      p + |image| <= |data| && data[p..p + |image|] == image && |Image(at, files, i + 1)| == p + |image|
  {
    var a, b, c := Image(at, files, i), FileImage(at, files[i], files[i].nblock), Image(at, files, i + 1);
    assert c == a + b;
    BeginsEarlier(at, files, i + 1, |files|, data);
    PrefixMiddle(a, b, data);
  }

  lemma AllocatedNext(files: seq<File>, i: nat)
    requires AllMapped(files) && i < |files|
    ensures forall s: nat :: Allocated(files, i + 1, s) <==>
      Allocated(files, i, s) || (files[i].name != "" && InFile(files[i], files[i].nblock, s))
  {
  }

  /** The file loop of the restore program, on a stream that begins with an image. */
  method Restore(drives: Drives, ssd: Stream, files: seq<File>, ghost saved: nat -> Sector)
    requires AllMapped(files) && ssd.pos == 0 && Begins(saved, files, |files|, ssd.data)
    modifies drives, ssd`pos
    ensures Restored(old(drives.at), drives.at, saved, files, |files|)
  {
    for i := 0 to |files|
      invariant AtFile(ssd.data, ssd.pos, saved, files, i)
      invariant Restored(old(drives.at), drives.at, saved, files, i)
    {
      RestoreNext(drives, ssd, files, i, saved, old(drives.at));
    }
  }

  /** The data begins with the image of the files, and the next to read is file i. */
  ghost predicate AtFile(data: seq<Sector>, pos: nat, saved: nat -> Sector, files: seq<File>, i: nat)
    requires AllMapped(files) && i <= |files|
  {
    Begins(saved, files, |files|, data) && pos == |Image(saved, files, i)|
  }

  /** The sectors of the first i named files are as saved, the others as they were. */
  ghost predicate Restored(was: nat -> Sector, at: nat -> Sector, saved: nat -> Sector, files: seq<File>, i: nat)
    requires AllMapped(files) && i <= |files|
  {
    forall s: nat :: at(s) == if Allocated(files, i, s) then saved(s) else was(s)
  }

  /** The sectors of the file are as saved if it has a name, all others as they were. */
  ghost predicate FileRestored(was: nat -> Sector, at: nat -> Sector, saved: nat -> Sector, file: File)
    requires Mapped(file)
  {
    forall s: nat :: at(s) == if file.name != "" && InFile(file, file.nblock, s) then saved(s) else was(s)
  }

  lemma RestoredNext(
    was: nat -> Sector, before: nat -> Sector, at: nat -> Sector, saved: nat -> Sector, files: seq<File>, i: nat)
    requires AllMapped(files) && i < |files| && Restored(was, before, saved, files, i)
    requires FileRestored(before, at, saved, files[i])
    ensures Restored(was, at, saved, files, i + 1)
  {
    AllocatedNext(files, i);
  }

  /** One turn of that loop. */
  method RestoreNext(
    drives: Drives, ssd: Stream, files: seq<File>, i: nat, ghost saved: nat -> Sector, ghost was: nat -> Sector)
    requires AllMapped(files) && i < |files| && AtFile(ssd.data, ssd.pos, saved, files, i)
    requires Restored(was, drives.at, saved, files, i)
    modifies drives, ssd`pos
    ensures AtFile(ssd.data, ssd.pos, saved, files, i + 1)
    ensures Restored(was, drives.at, saved, files, i + 1)
  {
    ghost var before := drives.at;
    RestoreFile(drives, ssd, files, i, saved);
    RestoredNext(was, before, drives.at, saved, files, i);
  }

  /** Only a file with a name is read. */
  method RestoreFile(drives: Drives, ssd: Stream, files: seq<File>, i: nat, ghost saved: nat -> Sector)
    requires AllMapped(files) && i < |files| && AtFile(ssd.data, ssd.pos, saved, files, i)
    modifies drives, ssd`pos
    ensures AtFile(ssd.data, ssd.pos, saved, files, i + 1)
    ensures FileRestored(old(drives.at), drives.at, saved, files[i])
  {
    if files[i].name != "" {
      FileInStream(saved, files, i, ssd.data);
      Parse(drives, ssd, files[i], saved);
    }
  }

  /**
   Backup, then any change of the drives, then restore with the same superblock: every allocated
   block is back to its contents at backup time and no other sector is touched.
  */
  method RoundTrip(drives: Drives, ssd: Stream, files: seq<File>, between: nat -> Sector)
    requires AllMapped(files)
    modifies drives, ssd
    ensures forall s: nat :: drives.at(s) == if Allocated(files, |files|, s) then old(drives.at)(s) else between(s)
  {
    ghost var saved := drives.at;
    ssd.pos := 0;
    Save(drives, ssd, files);
    drives.at := between;
    ssd.pos := 0;
    Restore(drives, ssd, files, saved);
  }

  /** In every reachable superblock the tables of all files are mapped, as both programs rely on. */
  lemma ReachableIsMapped(fs: Fs)
    requires Inv(fs)
    ensures AllMapped(fs.files)
  {
    forall f | 0 <= f < |fs.files| ensures Mapped(fs.files[f]) {
      InvMapped(fs, f);
    }
  }
}
