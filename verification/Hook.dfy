/**
 read_impl and write_impl of mylib/hook.c: how a file range is cut into NVMe requests, which of
 them are awaited, and where they go.
*/
module Hook {
  import opened Prelude
  import opened Arithmetic
  import opened Addressing
  import opened BlockMap
  import opened MyFs

  /** One nvme_read_req / nvme_write_req call: `at` is the position in the caller's buffer. */
  datatype Request = Request(lba: nat, nblk: nat, len: nat, at: nat)

  function DivCeil(x: nat, y: nat): nat
    requires 0 < y
  {
    (x + y - 1) / y
  }

  function Min(x: int, y: int): int { if x < y then x else y }

  /** The request unit write_impl picks. */
  function WriteUnit(pos: nat, len: nat): nat {
    if len % UNIT != 0 || pos % UNIT != 0 then SECTOR else UNIT
  }

  /** The request unit read_impl picks: a range inside one stripe unit goes out as one request. */
  function ReadUnit(pos: nat, len: nat): nat {
    if pos % UNIT + len <= UNIT then len else WriteUnit(pos, len)
  }

  /** The requests cover buffer positions from .. len, each position once, in order. */
  predicate Tiles(rs: seq<Request>, from: nat, len: nat) {
    && (rs == [] <==> len <= from)
    && (rs != [] ==> rs[0].at == from && rs[|rs| - 1].at + rs[|rs| - 1].len == len)
    && (forall i :: 0 <= i < |rs| ==> 0 < rs[i].len)
    && (forall i :: 0 <= i < |rs| - 1 ==> rs[i].at + rs[i].len == rs[i + 1].at)
  }

  predicate Holds(r: Request, x: nat) { r.at <= x < r.at + r.len }

  lemma {:induction false} TilesOrdered(rs: seq<Request>, from: nat, len: nat, i: nat, j: nat)
    requires Tiles(rs, from, len) && i < j < |rs|
    ensures rs[i].at + rs[i].len <= rs[j].at
    decreases j
  {
    if i + 1 < j {
      TilesOrdered(rs, from, len, i, j - 1);
      assert rs[j - 1].at + rs[j - 1].len == rs[j - 1 + 1].at;
    }
  }

  lemma TilesInside(rs: seq<Request>, from: nat, len: nat, i: nat)
    requires Tiles(rs, from, len) && i < |rs|
    ensures rs[i].at + rs[i].len <= len
  {
    if i < |rs| - 1 {
      TilesOrdered(rs, from, len, i, |rs| - 1);
    }
  }

  /** Tiling requests partition the range: a position inside belongs to exactly one of them, one outside to none. */
  lemma TilesPartition(rs: seq<Request>, from: nat, len: nat, x: nat)
    requires Tiles(rs, from, len)
    ensures (exists i :: 0 <= i < |rs| && Holds(rs[i], x)) <==> from <= x < len
    ensures forall i, j :: 0 <= i < j < |rs| ==> !(Holds(rs[i], x) && Holds(rs[j], x))
  {
    forall i, j | 0 <= i < j < |rs| ensures rs[i].at + rs[i].len <= rs[j].at {
      TilesOrdered(rs, from, len, i, j);
    }
    if from <= x < len {
      var k := 0;
      while k < |rs| - 1 && rs[k].at + rs[k].len <= x
        invariant k < |rs| && rs[k].at <= x
      {
        k := k + 1;
      }
      assert Holds(rs[k], x);
    }
  }

  /** The sectors of a request lie inside one stripe unit, hence one drive, one block and one bounce slot. */
  predicate InOneUnit(r: Request, pos: nat) {
    && (pos + r.at) % SECTOR == 0
    && 1 <= r.nblk && r.len <= r.nblk * SECTOR < r.len + SECTOR
    && (pos + r.at) % UNIT + r.nblk * SECTOR <= UNIT
  }

  /** Buffer position `at` is one the chunk loops reach. */
  predicate AtUnit(pos: nat, len: nat, unit: nat, at: int) {
    && 0 <= at && 0 < unit
    && (at < len ==>
          || (unit == SECTOR && at % SECTOR == 0)
          || (unit == UNIT && at % UNIT == 0 && pos % UNIT == 0 && len % UNIT == 0)
          || (unit == len && at == 0 && pos % UNIT + len <= UNIT))
  }

  lemma UnitsAreUnits(pos: nat, len: nat)
    requires 0 < len
    ensures AtUnit(pos, len, ReadUnit(pos, len), 0) && AtUnit(pos, len, WriteUnit(pos, len), 0)
  {
  }

  lemma SectorEndsInUnit(x: nat)
    requires x % SECTOR == 0
    ensures x % UNIT + SECTOR <= UNIT && x % UNIT % SECTOR == 0
  {
    RemainderOfRemainder(x, STRIPE, SECTOR);
    AddMultiples(x % UNIT, UNIT, SECTOR);
  }

  lemma SectorChunkFits(lba: nat, pos: nat, len: nat, at: nat)
    requires pos % SECTOR == 0 && at < len && at % SECTOR == 0
    ensures InOneUnit(Chunk(lba, len, SECTOR, at), pos) && (at + SECTOR) % SECTOR == 0
  {
    AddMultiples(pos, at, SECTOR);
    AddMultiples(at, SECTOR, SECTOR);
    SectorEndsInUnit(pos + at);
    assert Chunk(lba, len, SECTOR, at) == Request(lba, 1, Min(SECTOR, len - at), at);
  }

  lemma UnitChunkFits(lba: nat, pos: nat, len: nat, at: nat)
    requires pos % UNIT == 0 && len % UNIT == 0 && at < len && at % UNIT == 0
    ensures InOneUnit(Chunk(lba, len, UNIT, at), pos) && (at + UNIT) % UNIT == 0
  {
    AddMultiples(pos, at, UNIT);
    AddMultiples(at, len, UNIT);
    MultipleOfMultiple(pos + at, STRIPE, SECTOR);
    AddMultiples(at, UNIT, UNIT);
    assert Chunk(lba, len, UNIT, at) == Request(lba, STRIPE, UNIT, at);
  }

  lemma SmallRangeFits(lba: nat, pos: nat, len: nat)
    requires pos % SECTOR == 0 && 0 < len && pos % UNIT + len <= UNIT
    ensures InOneUnit(Chunk(lba, len, len, 0), pos)
  {
    SectorEndsInUnit(pos);
  }

  lemma ChunkFits(lba: nat, pos: nat, len: nat, unit: nat, at: nat)
    requires pos % SECTOR == 0 && at < len && AtUnit(pos, len, unit, at)
    ensures InOneUnit(Chunk(lba, len, unit, at), pos) && AtUnit(pos, len, unit, at + unit)
  {
    if unit == SECTOR && at % SECTOR == 0 {
      SectorChunkFits(lba, pos, len, at);
    } else if unit == UNIT && at % UNIT == 0 && pos % UNIT == 0 && len % UNIT == 0 {
      UnitChunkFits(lba, pos, len, at);
    } else {
      SmallRangeFits(lba, pos, len);
    }
  }

  function Chunk(lba: nat, len: nat, unit: nat, at: nat): Request
    requires at < len
  {
    Request(lba, DivCeil(unit, SECTOR), Min(unit, len - at), at)
  }

  /** A request inside the range, inside one stripe unit, and addressed to the block of its offset. */
  predicate Good(r: Request, file: File, pos: nat, len: nat) {
    && InOneUnit(r, pos) && r.at + r.len <= len && pos + r.at < file.nblock * BLOCK_SIZE
    && var k := (pos + r.at) / BLOCK_SIZE;
       k < |file.block| && 0 <= file.block[k] && r.lba == BlockLba(file.block[k], pos + r.at)
  }

  predicate AllGood(rs: seq<Request>, file: File, pos: nat, len: nat) {
    forall i :: 0 <= i < |rs| ==> Good(rs[i], file, pos, len)
  }

  /** A request stays in the 2 MB block of its first byte. */
  lemma UnitInBlock(r: Request, pos: nat)
    requires InOneUnit(r, pos)
    ensures (pos + r.at) % BLOCK_SIZE + r.nblk * SECTOR <= BLOCK_SIZE && r.nblk * SECTOR <= UNIT
  {
    NestedRoom(pos + r.at, 512, UNIT, r.nblk * SECTOR);
  }

  lemma ChunkEndsInBlock(pos: nat, len: nat, unit: nat, j: nat)
    requires pos % SECTOR == 0 && j < len && AtUnit(pos, len, unit, j)
    ensures pos + j + unit <= ((pos + j) / BLOCK_SIZE + 1) * BLOCK_SIZE && AtUnit(pos, len, unit, j + unit)
  {
    ChunkFits(0, pos, len, unit, j);
    UnitInBlock(Chunk(0, len, unit, j), pos);
    UnitCovered(unit);
    EndsInBlock(pos + j, unit);
  }

  lemma UnitCovered(unit: nat)
    ensures unit <= DivCeil(unit, SECTOR) * SECTOR
  {
  }

  lemma EndsInBlock(x: nat, c: nat)
    requires x % BLOCK_SIZE + c <= BLOCK_SIZE
    ensures x + c <= (x / BLOCK_SIZE + 1) * BLOCK_SIZE
  {
  }

  // ---------------------------------------------------------------- the chunk loops

  /** What the loops leave: the superblock, the requests issued, and whether no assertion stopped them. */
  datatype Outcome = Outcome(fs: Fs, rs: seq<Request>, ok: bool)

  /** Ring and table hold block numbers or INACTIVE. */
  predicate Numbered(fs: Fs, f: nat) {
    && Shape(fs) && f < |fs.files|
    && (forall i :: 0 <= i < |fs.ring| ==> INACTIVE <= fs.ring[i])
    && (forall i :: 0 <= i < |fs.files[f].block| ==> INACTIVE <= fs.files[f].block[i])
  }

  /** And the range fits the block table. */
  predicate Entries(fs: Fs, f: nat, pos: nat, len: nat) {
    Numbered(fs, f) && pos + len <= |fs.files[f].block| * BLOCK_SIZE
  }

  /** Every superblock reached from an initial one meets that for every file and every range its table can hold. */
  lemma ReachedEntries(nb: nat, nf: nat, mb: nat, es: seq<Event>, fs: Fs, f: nat, pos: nat, len: nat)
    requires 2 <= nb && Reaches(Init(nb, nf, mb), es, fs) && f < |fs.files|
    requires pos + len <= |fs.files[f].block| * BLOCK_SIZE
    ensures Entries(fs, f, pos, len)
  {
    RunNumbers(Init(nb, nf, mb), es, fs);
    BlocksConserved(nb, nf, mb, es, fs);
    forall j | 0 <= j < |fs.files[f].block| ensures INACTIVE <= fs.files[f].block[j] {
      assert Cell(fs, f, j);
    }
  }

  lemma InTable(fs: Fs, f: nat, pos: nat, len: nat, j: nat)
    requires Entries(fs, f, pos, len) && j < len
    ensures (pos + j) / BLOCK_SIZE < |fs.files[f].block|
  {
  }

  lemma TouchEntries(fs: Fs, f: nat, pos: nat, len: nat, k: nat, write: bool)
    requires Entries(fs, f, pos, len) && k < |fs.files[f].block|
    ensures Entries(Touch(fs, f, k, write), f, pos, len)
  {
  }

  /** The requests from position j on and the allocations a write makes for them, whatever the state. */
  function Run(fs: Fs, f: nat, pos: nat, len: nat, unit: nat, j: nat, write: bool): Outcome
    requires Entries(fs, f, pos, len) && 0 < unit
    decreases len - j
  {
    if len <= j then Outcome(fs, [], true)
    else
      InTable(fs, f, pos, len, j);
      var k := (pos + j) / BLOCK_SIZE;
      TouchEntries(fs, f, pos, len, k, write);
      var fs' := Touch(fs, f, k, write);
      var b := fs'.files[f].block[k];
      if b == INACTIVE then Outcome(fs', [], false)
      else Issued([Chunk(BlockLba(b, pos + j), len, unit, j)], Run(fs', f, pos, len, unit, j + unit, write))
  }

  function Issued(rs: seq<Request>, o: Outcome): Outcome { o.(rs := rs + o.rs) }

  lemma IssuedTwice(a: seq<Request>, b: seq<Request>, o: Outcome)
    ensures Issued(a, Issued(b, o)) == Issued(a + b, o)
  {
    Regroup(a, b, o.rs);
  }

  lemma TilesAhead(r: Request, rs: seq<Request>, unit: nat, len: nat)
    requires 0 < unit && r.at < len && r.len == Min(unit, len - r.at) && Tiles(rs, r.at + unit, len)
    ensures Tiles([r] + rs, r.at, len)
  {
  }

  /** If no assertion stops them, the requests tile the range. */
  lemma {:induction false} RunTiles(fs: Fs, f: nat, pos: nat, len: nat, unit: nat, j: nat, write: bool)
    requires Entries(fs, f, pos, len) && 0 < unit
    ensures var o := Run(fs, f, pos, len, unit, j, write); o.ok ==> Tiles(o.rs, j, len)
    decreases len - j
  {
    if j < len {
      InTable(fs, f, pos, len, j);
      var k := (pos + j) / BLOCK_SIZE;
      TouchEntries(fs, f, pos, len, k, write);
      var fs' := Touch(fs, f, k, write);
      var b := fs'.files[f].block[k];
      RunTiles(fs', f, pos, len, unit, j + unit, write);
      var rest := Run(fs', f, pos, len, unit, j + unit, write);
      if b != INACTIVE && rest.ok {
        TilesAhead(Chunk(BlockLba(b, pos + j), len, unit, j), rest.rs, unit, len);
      }
    }
  }

  /** And there are as many as pieces of the unit cover the range. */
  lemma {:induction false} RunCount(fs: Fs, f: nat, pos: nat, len: nat, unit: nat, j: nat, write: bool)
    requires Entries(fs, f, pos, len) && 0 < unit && j < len
    ensures var o := Run(fs, f, pos, len, unit, j, write); o.ok ==> |o.rs| == DivCeil(len - j, unit)
    decreases len - j
  {
    InTable(fs, f, pos, len, j);
    var k := (pos + j) / BLOCK_SIZE;
    TouchEntries(fs, f, pos, len, k, write);
    if j + unit < len {
      RunCount(Touch(fs, f, k, write), f, pos, len, unit, j + unit, write);
      CeilNext(len - j, unit);
    } else {
      CeilOne(len - j, unit);
    }
  }

  /** The number of requests of a write: whole stripe units where position and length allow it, else sectors. */
  function WriteCount(pos: nat, len: nat): nat {
    if len % UNIT == 0 && pos % UNIT == 0 then len / UNIT else DivCeil(len, SECTOR)
  }

  /** A read inside one stripe unit is one request. */
  function ReadCount(pos: nat, len: nat): nat {
    if 0 < len && pos % UNIT + len <= UNIT then 1 else WriteCount(pos, len)
  }

  lemma CountsChosen(pos: nat, len: nat)
    requires 0 < len
    ensures DivCeil(len, WriteUnit(pos, len)) == WriteCount(pos, len)
    ensures DivCeil(len, ReadUnit(pos, len)) == ReadCount(pos, len)
  {
    CeilOne(len, len);
  }

  predicate AllInUnits(rs: seq<Request>, pos: nat) {
    forall i :: 0 <= i < |rs| ==> InOneUnit(rs[i], pos)
  }

  lemma {:induction false} RunInUnits(fs: Fs, f: nat, pos: nat, len: nat, unit: nat, j: nat, write: bool)
    requires Entries(fs, f, pos, len) && pos % SECTOR == 0 && AtUnit(pos, len, unit, j)
    ensures AllInUnits(Run(fs, f, pos, len, unit, j, write).rs, pos)
    decreases len - j
  {
    if j < len {
      InTable(fs, f, pos, len, j);
      var k := (pos + j) / BLOCK_SIZE;
      TouchEntries(fs, f, pos, len, k, write);
      var fs' := Touch(fs, f, k, write);
      if fs'.files[f].block[k] != INACTIVE {
        ChunkFits(BlockLba(fs'.files[f].block[k], pos + j), pos, len, unit, j);
        RunInUnits(fs', f, pos, len, unit, j + unit, write);
      }
    }
  }

  // ---------------------------------------------------------------- what reading makes of it

  /** Every offset of the range is in a block the file has. */
  ghost predicate Active(file: File, from: nat, to: nat) {
    forall o: nat :: from <= o < to ==> BlockAt(file, o) != INACTIVE
  }

  function BlockAt(file: File, o: nat): int {
    if o / BLOCK_SIZE < |file.block| then file.block[o / BLOCK_SIZE] else INACTIVE
  }

  lemma SameBlock(x: nat, c: nat, o: nat)
    requires x <= o < x + c && x + c <= (x / BLOCK_SIZE + 1) * BLOCK_SIZE
    ensures o / BLOCK_SIZE == x / BLOCK_SIZE
  {
    var q := x / BLOCK_SIZE;
    DivModUnique(q, o - q * BLOCK_SIZE, BLOCK_SIZE);
  }

  /** The assertion stops a read exactly when a block of the range is inactive. */
  lemma {:induction false} StopsAtHole(fs: Fs, f: nat, pos: nat, len: nat, unit: nat, j: nat)
    requires Entries(fs, f, pos, len) && pos % SECTOR == 0 && AtUnit(pos, len, unit, j)
    ensures Run(fs, f, pos, len, unit, j, false).ok <==> Active(fs.files[f], pos + j, pos + len)
    decreases len - j
  {
    if j < len {
      InTable(fs, f, pos, len, j);
      ChunkEndsInBlock(pos, len, unit, j);
      var file, x := fs.files[f], pos + j;
      forall o: nat | x <= o < x + unit ensures BlockAt(file, o) == file.block[x / BLOCK_SIZE] {
        SameBlock(x, unit, o);
      }
      assert BlockAt(file, x) == file.block[x / BLOCK_SIZE];
      StopsAtHole(fs, f, pos, len, unit, j + unit);
    }
  }

  /** A read changes nothing, and each of its requests is addressed to the block of its offset. */
  lemma {:induction false} ReadRunGood(fs: Fs, f: nat, pos: nat, len: nat, unit: nat, j: nat)
    requires Entries(fs, f, pos, len) && pos % SECTOR == 0 && AtUnit(pos, len, unit, j)
    requires pos + len <= fs.files[f].nblock * BLOCK_SIZE
    ensures var o := Run(fs, f, pos, len, unit, j, false); o.fs == fs && AllGood(o.rs, fs.files[f], pos, len)
    decreases len - j
  {
    if j < len {
      InTable(fs, f, pos, len, j);
      var b := fs.files[f].block[(pos + j) / BLOCK_SIZE];
      if b != INACTIVE {
        var r := Chunk(BlockLba(b, pos + j), len, unit, j);
        ChunkFits(r.lba, pos, len, unit, j);
        ReadRunGood(fs, f, pos, len, unit, j + unit);
        assert Good(r, fs.files[f], pos, len);
      }
    }
  }

  /** In a file grown in order every offset before the end is in a block. */
  lemma MappedIsActive(file: File, from: nat, to: nat)
    requires Mapped(file) && to <= file.nblock * BLOCK_SIZE
    ensures Active(file, from, to)
  {
  }

  /** The identifiers n, n + 1, and so on, k of them. */
  function From(n: nat, k: nat): (s: seq<nat>)
    ensures |s| == k
  {
    seq(k, i requires 0 <= i => n + i)
  }

  lemma Regroup(a: seq<Request>, b: seq<Request>, c: seq<Request>)
    ensures a + (b + c) == (a + b) + c
  {
  }

  lemma FromNext(n: nat, k: nat)
    ensures From(n, k) + [n + k] == From(n, k + 1)
  {
  }

  // ---------------------------------------------------------------- the order of issuing and polling

  /** The k-th request is issued, or polled until nvme_check answers 1. */
  datatype Act = Issue(k: nat) | Poll(k: nat)

  function Issues(first: nat, n: nat): seq<Act> { seq(n, k requires 0 <= k => Issue(first + k)) }

  function Polls(first: nat, n: nat): seq<Act> { seq(n, k requires 0 <= k => Poll(first + k)) }

  /** Size of the last of the batches of up to `degree` that n requests are issued in. */
  function LastBatch(n: nat, degree: nat): (b: nat)
    requires 0 < n && 0 < degree
    ensures 0 < b <= degree && b <= n
  {
    if n <= degree then n else LastBatch(n - degree, degree)
  }

  /** n requests fill their batches. */
  predicate Whole(n: nat, degree: nat)
    requires 0 < degree
  {
    0 < n ==> LastBatch(n, degree) == degree
  }

  /** n requests in batches, each batch issued as a whole and then polled in order. */
  function Batches(n: nat, degree: nat): seq<Act>
    requires 0 < degree
  {
    if n == 0 then []
    else
      var b := LastBatch(n, degree);
      Batches(n - b, degree) + Issues(n - b, b) + Polls(n - b, b)
  }

  /** The same with the last request of all left unpolled. */
  function BatchesButLast(n: nat, degree: nat): seq<Act>
    requires 0 < degree
  {
    if n == 0 then []
    else
      var b := LastBatch(n, degree);
      Batches(n - b, degree) + Issues(n - b, b) + Polls(n - b, b - 1)
  }

  /** After whole batches, one more is the last one. */
  lemma {:induction false} OneMoreBatch(n: nat, b: nat, degree: nat)
    requires 0 < b <= degree && Whole(n, degree)
    ensures LastBatch(n + b, degree) == b && (b == degree ==> Whole(n + b, degree))
  {
    if 0 < n {
      if n == degree {
        assert LastBatch(n + b, degree) == LastBatch(b, degree);
      } else {
        OneMoreBatch(n - degree, b, degree);
      }
    }
  }

  /** Requests issued and not polled. */
  function Unpolled(acts: seq<Act>): int {
    if acts == [] then 0 else Unpolled(acts[..|acts| - 1]) + if acts[|acts| - 1].Issue? then 1 else -1
  }

  /** At no point are more than `degree` requests unpolled, so that the array of identifiers holds them all. */
  predicate NeverMore(acts: seq<Act>, degree: nat) {
    forall i :: 0 <= i <= |acts| ==> Unpolled(acts[..i]) <= degree
  }

  lemma {:induction false} IssuesUnpolled(acts: seq<Act>, first: nat, n: nat, degree: nat)
    requires NeverMore(acts, degree) && Unpolled(acts) + n <= degree
    ensures NeverMore(acts + Issues(first, n), degree) && Unpolled(acts + Issues(first, n)) == Unpolled(acts) + n
  {
    if n == 0 {
      assert acts + Issues(first, 0) == acts;
    } else {
      IssuesUnpolled(acts, first, n - 1, degree);
      assert acts + Issues(first, n) == (acts + Issues(first, n - 1)) + [Issue(first + n - 1)];
      OneAct(acts + Issues(first, n - 1), Issue(first + n - 1), degree);
    }
  }

  lemma {:induction false} PollsUnpolled(acts: seq<Act>, first: nat, n: nat, degree: nat)
    requires NeverMore(acts, degree)
    ensures NeverMore(acts + Polls(first, n), degree) && Unpolled(acts + Polls(first, n)) == Unpolled(acts) - n
  {
    if n == 0 {
      assert acts + Polls(first, 0) == acts;
    } else {
      PollsUnpolled(acts, first, n - 1, degree);
      assert acts + Polls(first, n) == (acts + Polls(first, n - 1)) + [Poll(first + n - 1)];
      assert Unpolled((acts + Polls(first, n - 1))[..|acts + Polls(first, n - 1)|]) <= degree;
      assert (acts + Polls(first, n - 1))[..|acts + Polls(first, n - 1)|] == acts + Polls(first, n - 1);
      OneAct(acts + Polls(first, n - 1), Poll(first + n - 1), degree);
    }
  }

  lemma OneAct(acts: seq<Act>, a: Act, degree: nat)
    requires NeverMore(acts, degree) && Unpolled(acts) + (if a.Issue? then 1 else -1) <= degree
    ensures NeverMore(acts + [a], degree) && Unpolled(acts + [a]) == Unpolled(acts) + if a.Issue? then 1 else -1
  {
    var all := acts + [a];
    assert all[..|acts|] == acts && all[..|all|] == all;
    forall i | 0 <= i <= |all| ensures Unpolled(all[..i]) <= degree {
      if i <= |acts| {
        assert all[..i] == acts[..i];
      }
    }
  }

  lemma BatchUnpolled(acts: seq<Act>, first: nat, b: nat, polled: nat, degree: nat)
    requires NeverMore(acts, degree) && Unpolled(acts) == 0 && b <= degree
    ensures var all := acts + Issues(first, b) + Polls(first, polled);
      NeverMore(all, degree) && Unpolled(all) == b - polled
  {
    IssuesUnpolled(acts, first, b, degree);
    PollsUnpolled(acts + Issues(first, b), first, polled, degree);
  }

  /** Batches leave at most `degree` requests unpolled at any time and none at the end. */
  lemma {:induction false} BatchesUnpolled(n: nat, degree: nat)
    requires 0 < degree
    ensures NeverMore(Batches(n, degree), degree) && Unpolled(Batches(n, degree)) == 0
  {
    if 0 < n {
      var b := LastBatch(n, degree);
      BatchesUnpolled(n - b, degree);
      BatchUnpolled(Batches(n - b, degree), n - b, b, b, degree);
    }
  }

  /** So do those of a write, which leave one. */
  lemma ButLastUnpolled(n: nat, degree: nat)
    requires 0 < degree
    ensures NeverMore(BatchesButLast(n, degree), degree)
    ensures Unpolled(BatchesButLast(n, degree)) == if n == 0 then 0 else 1
  {
    if 0 < n {
      var b := LastBatch(n, degree);
      BatchesUnpolled(n - b, degree);
      BatchUnpolled(Batches(n - b, degree), n - b, b, b - 1, degree);
    }
  }

  /** The second loop of each batch: poll nvme_check for the requests of the batch in turn. */
  method Await(rid: seq<nat>, ghost first: nat, acts: seq<Act>) returns (r: seq<Act>)
    requires rid == From(first, |rid|)
    ensures r == acts + Polls(first, |rid|)
  {
    r := acts;
    for k := 0 to |rid|
      invariant r == acts + Polls(first, k)
    {
      r := r + [Poll(rid[k])];
      assert Polls(first, k) + [Poll(first + k)] == Polls(first, k + 1);
    }
  }

  /** The acts of one batch, of which `counted` requests are polled. */
  method PollBatch(rid: seq<nat>, counted: nat, ghost first: nat, acts: seq<Act>) returns (r: seq<Act>)
    requires rid == From(first, |rid|) && counted <= |rid|
    ensures r == acts + Issues(first, |rid|) + Polls(first, counted)
  {
    r := acts + seq(|rid|, k requires 0 <= k < |rid| => Issue(rid[k]));
    assert rid[..counted] == From(first, counted);
    r := Await(rid[..counted], first, r);
  }

  lemma BatchesNext(n: nat, b: nat, degree: nat)
    requires 0 < b <= degree && Whole(n, degree)
    ensures Batches(n + b, degree) == Batches(n, degree) + Issues(n, b) + Polls(n, b)
    ensures BatchesButLast(n + b, degree) == Batches(n, degree) + Issues(n, b) + Polls(n, b - 1)
    ensures b == degree ==> Whole(n + b, degree)
  {
    OneMoreBatch(n, b, degree);
  }

  /** The loops have come from position `first` in state `start` to position j in state fs, issuing rs. */
  ghost predicate Ran(
    start: Fs, f: nat, pos: nat, len: nat, unit: nat, write: bool, first: nat, fs: Fs, j: nat, rs: seq<Request>)
  {
    && 0 < unit && Entries(start, f, pos, len) && Entries(fs, f, pos, len)
    && Run(start, f, pos, len, unit, first, write) == Issued(rs, Run(fs, f, pos, len, unit, j, write))
  }

  ghost predicate Stopped(
    start: Fs, f: nat, pos: nat, len: nat, unit: nat, write: bool, first: nat, fs: Fs, rs: seq<Request>)
  {
    && 0 < unit && Entries(start, f, pos, len)
    && Run(start, f, pos, len, unit, first, write) == Outcome(fs, rs, false)
  }

  lemma RanOn(start: Fs, f: nat, pos: nat, len: nat, unit: nat, write: bool, first: nat,
              mid: Fs, j: nat, rs: seq<Request>, fs: Fs, j': nat, more: seq<Request>)
    requires Ran(start, f, pos, len, unit, write, first, mid, j, rs)
      && Ran(mid, f, pos, len, unit, write, j, fs, j', more)
    ensures Ran(start, f, pos, len, unit, write, first, fs, j', rs + more)
  {
    IssuedTwice(rs, more, Run(fs, f, pos, len, unit, j', write));
  }

  /** One turn of an inner loop: find or allocate the block, and form the request unless the assertion stops it. */
  method IssueOne(
    fs: Superblock, f: nat, pos: nat, len: nat, unit: nat, write: bool, j: nat)
    returns (r: Option<Request>)
    requires Entries(fs.View(), f, pos, len) && 0 < unit && j < len
    modifies fs
    ensures match r
      case Some(x) => Ran(old(fs.View()), f, pos, len, unit, write, j, fs.View(), j + unit, [x])
      case None => Stopped(old(fs.View()), f, pos, len, unit, write, j, fs.View(), [])
    ensures !write ==> fs.View() == old(fs.View())
  {
    InTable(fs.View(), f, pos, len, j);
    TouchEntries(fs.View(), f, pos, len, (pos + j) / BLOCK_SIZE, write);
    var lba := fs.GetLba(f, pos + j, write);
    r := if lba.Some? then Some(Chunk(lba.value, len, unit, j)) else None;
  }

  /** The same turn, seen from the beginning of the batch. */
  method IssueNext(fs: Superblock, f: nat, pos: nat, len: nat, unit: nat, write: bool, j: nat,
                   ghost start: Fs, ghost first: nat, ghost rs: seq<Request>)
    returns (r: Option<Request>)
    requires Ran(start, f, pos, len, unit, write, first, fs.View(), j, rs) && j < len
    modifies fs
    ensures match r
      case Some(x) => Ran(start, f, pos, len, unit, write, first, fs.View(), j + unit, rs + [x])
      case None => Stopped(start, f, pos, len, unit, write, first, fs.View(), rs)
    ensures !write ==> fs.View() == old(fs.View())
  {
    ghost var mid := fs.View();
    r := IssueOne(fs, f, pos, len, unit, write, j);
    if r.Some? {
      RanOn(start, f, pos, len, unit, write, first, mid, j, rs, fs.View(), j + unit, [r.value]);
    }
  }

  // ---------------------------------------------------------------- read_impl

  /** The range read_impl serves: what of the request lies before the end of the file. */
  function Clamped(file: File, pos: nat, length: nat): nat {
    var size := file.nblock * BLOCK_SIZE;
    if pos + length <= size then length else if pos <= size then size - pos else 0
  }

  /** The bytes served are those asked for that the file has. */
  lemma ClampedMeans(file: File, pos: nat, length: nat, o: nat)
    ensures pos <= o < pos + Clamped(file, pos, length) <==> pos <= o < pos + length && o < file.nblock * BLOCK_SIZE
  {
  }

  /** The first loop of a batch of read_impl: issue up to `degree` requests. */
  method IssueReads(fs: Superblock, f: nat, pos: nat, len: nat, unit: nat, degree: nat, first: nat, issued: nat)
    returns (ok: bool, j: nat, rs: seq<Request>, rid: seq<nat>)
    requires Entries(fs.View(), f, pos, len) && 0 < unit && first < len && 0 < degree
    modifies fs
    ensures fs.View() == old(fs.View()) && rid == From(issued, |rs|)
    ensures |rid| <= degree && (ok ==> 0 < |rid| && (len <= j || |rid| == degree))
    ensures if ok then Ran(fs.View(), f, pos, len, unit, false, first, fs.View(), j, rs) && first < j
      else Stopped(fs.View(), f, pos, len, unit, false, first, fs.View(), rs)
  {
    ok, j, rs, rid := true, first, [], [];
    ghost var start := fs.View();
    while |rid| < degree && j < len
      invariant fs.View() == start && first <= j && (|rid| > 0 ==> first < j) && |rid| <= degree
        && (|rid| == 0 ==> j == first)
      invariant Ran(start, f, pos, len, unit, false, first, fs.View(), j, rs) && rid == From(issued, |rs|)
      decreases len - j
    {
      var r := IssueNext(fs, f, pos, len, unit, false, j, start, first, rs);
      if r.None? {
        return false, j, rs, rid;
      }
      FromNext(issued, |rs|);
      rid := rid + [issued + |rs|];
      rs := rs + [r.value];
      j := j + unit;
    }
  }

  /** The batches of read_impl. */
  method ReadBatches(fs: Superblock, f: nat, pos: nat, len: nat, unit: nat, degree: nat)
    returns (ok: bool, rs: seq<Request>, acts: seq<Act>)
    requires Entries(fs.View(), f, pos, len) && 0 < unit && 0 < degree
    modifies fs
    ensures fs.View() == old(fs.View())
    ensures Outcome(fs.View(), rs, ok) == Run(fs.View(), f, pos, len, unit, 0, false)
    ensures ok ==> acts == Batches(|rs|, degree)
  {
    rs, acts := [], [];
    ghost var start := fs.View();
    var j: nat := 0;
    while j < len
      invariant fs.View() == start && Ran(start, f, pos, len, unit, false, 0, start, j, rs)
      invariant acts == Batches(|rs|, degree) && (j < len ==> Whole(|rs|, degree))
      decreases len - j
    {
      var batch, rid;
      ghost var from := j;
      ok, j, batch, rid := IssueReads(fs, f, pos, len, unit, degree, j, |rs|);
      if !ok {
        rs := rs + batch;
        return;
      }
      RanOn(start, f, pos, len, unit, false, 0, start, from, rs, start, j, batch);
      BatchesNext(|rs|, |batch|, degree);
      acts := PollBatch(rid, |rid|, |rs|, acts);
      rs := rs + batch;
    }
    ok := true;
  }

  /**
   read_impl.  `acts` lists the requests in the order they were issued and polled: in batches of up to
   `degree`, each polled to the end before the next is issued.  The unmapped-block assertion of
   myfs_get_lba stops it exactly when the clamped range has a hole; in a file grown in order there is none.
  */
  method ReadImpl(fs: Superblock, f: nat, length: nat, pos: nat, degree: nat)
    returns (ok: bool, rs: seq<Request>, acts: seq<Act>)
    requires Numbered(fs.View(), f) && fs.files[f].nblock <= |fs.files[f].block|
    requires pos % SECTOR == 0 && 0 < degree
    modifies fs
    ensures fs.View() == old(fs.View())
    ensures ok <==> Active(fs.files[f], pos, pos + Clamped(fs.files[f], pos, length))
    ensures Mapped(fs.files[f]) ==> ok
    ensures ok ==> Tiles(rs, 0, Clamped(fs.files[f], pos, length)) && acts == Batches(|rs|, degree)
    ensures ok ==> |rs| == ReadCount(pos, Clamped(fs.files[f], pos, length))
    ensures AllGood(rs, fs.files[f], pos, Clamped(fs.files[f], pos, length))
  {
    var size := fs.files[f].nblock * BLOCK_SIZE;
    var len := if pos + length > size then size - pos else length;
    ok, rs, acts := true, [], [];
    if 0 < len {
      var unit := ReadUnit(pos, len);
      ReadOutcome(fs.View(), f, pos, len, unit);
      ok, rs, acts := ReadBatches(fs, f, pos, len, unit, degree);
    }
  }

  /** What the loops of a read come to. */
  lemma ReadOutcome(fs: Fs, f: nat, pos: nat, len: nat, unit: nat)
    requires Entries(fs, f, pos, len) && pos % SECTOR == 0 && 0 < len && unit == ReadUnit(pos, len)
    requires pos + len <= fs.files[f].nblock * BLOCK_SIZE
    ensures 0 < unit
    ensures var o, file := Run(fs, f, pos, len, unit, 0, false), fs.files[f];
      && (o.ok <==> Active(file, pos, pos + len)) && (Mapped(file) ==> o.ok)
      && (o.ok ==> Tiles(o.rs, 0, len) && |o.rs| == ReadCount(pos, len))
      && AllGood(o.rs, file, pos, len)
  {
    UnitsAreUnits(pos, len);
    RunTiles(fs, f, pos, len, unit, 0, false);
    RunCount(fs, f, pos, len, unit, 0, false);
    CountsChosen(pos, len);
    ReadRunGood(fs, f, pos, len, unit, 0);
    StopsAtHole(fs, f, pos, len, unit, 0);
    if Mapped(fs.files[f]) {
      MappedIsActive(fs.files[f], pos, pos + len);
    }
  }

  // ---------------------------------------------------------------- write_impl

  /** Number of blocks the file has after the range is written. */
  function BlocksAfter(file: File, pos: nat, len: nat): nat {
    var n := DivCeil(pos + len, BLOCK_SIZE);
    if len == 0 || n < file.nblock then file.nblock else n
  }

  /** The range starts inside or right at the end of the file, fits its table, and the free blocks suffice. */
  predicate CanWrite(fs: Fs, f: nat, pos: nat, len: nat) {
    && Shape(fs) && f < |fs.files| && Mapped(fs.files[f]) && FreeEntriesGood(fs)
    && pos <= fs.files[f].nblock * BLOCK_SIZE
    && BlocksAfter(fs.files[f], pos, len) <= |fs.files[f].block|
    && BlocksAfter(fs.files[f], pos, len) - fs.files[f].nblock <= Free(fs)
  }

  function Written(fs: Fs, f: nat, pos: nat, len: nat): Fs
    requires CanWrite(fs, f, pos, len)
  {
    Grown(fs, f, BlocksAfter(fs.files[f], pos, len))
  }

  lemma WrittenIsMapped(fs: Fs, f: nat, pos: nat, len: nat)
    requires CanWrite(fs, f, pos, len) && 0 < len
    ensures var file := Written(fs, f, pos, len).files[f];
      Mapped(file) && pos + len <= file.nblock * BLOCK_SIZE && file.nblock == BlocksAfter(fs.files[f], pos, len)
  {
    GrownShape(fs, f, BlocksAfter(fs.files[f], pos, len));
  }

  /** The block the chunk at j needs is the file's last one, or the next one to allocate. */
  lemma NextBlock(pos: nat, len: nat, j: nat, top: nat, all: nat)
    requires j < len && pos + j <= top * BLOCK_SIZE && all == DivCeil(pos + len, BLOCK_SIZE)
    ensures (pos + j) / BLOCK_SIZE <= top && (pos + j) / BLOCK_SIZE < all
  {
  }

  function TopAfter(pos: nat, j: nat, top: nat): nat {
    if (pos + j) / BLOCK_SIZE == top then top + 1 else top
  }

  /** Touching a block the file has, or the next one. */
  lemma TouchNext(start: Fs, f: nat, top: nat, k: nat)
    requires Shape(start) && f < |start.files| && start.files[f].nblock <= top <= |start.files[f].block|
    requires k <= top && k < |start.files[f].block| && Mapped(Grown(start, f, top).files[f])
      && Grown(start, f, top).files[f].nblock == top
    ensures Touch(Grown(start, f, top), f, k, true) == Grown(start, f, if k == top then top + 1 else top)
  {
  }

  /** The file can grow to `all` blocks. */
  predicate CanGrow(start: Fs, f: nat, all: nat) {
    && Shape(start) && f < |start.files| && Mapped(start.files[f]) && FreeEntriesGood(start)
    && start.files[f].nblock <= all <= |start.files[f].block| && all - start.files[f].nblock <= Free(start)
  }

  /** Touching block k leaves the file grown to it, with the block it has in the whole grown file. */
  lemma TouchGrows(start: Fs, f: nat, top: nat, all: nat, k: nat, top': nat)
    requires CanGrow(start, f, all) && start.files[f].nblock <= top <= all
    requires k <= top && top' == (if k == top then top + 1 else top) && top' <= all
    ensures k < all && Touch(Grown(start, f, top), f, k, true) == Grown(start, f, top')
    ensures Grown(start, f, top').files[f].block[k] == Grown(start, f, all).files[f].block[k]
  {
    GrownShape(start, f, top);
    TouchNext(start, f, top, k);
    GrownExtends(start, f, top', all);
  }

  /** write_impl has issued the range up to j and grown the file to `top` blocks. */
  predicate Progress(start: Fs, f: nat, pos: nat, len: nat, unit: nat, j: nat, top: nat) {
    && CanWrite(start, f, pos, len) && pos % SECTOR == 0 && AtUnit(pos, len, unit, j)
    && start.files[f].nblock <= top <= BlocksAfter(start.files[f], pos, len) && pos + j <= top * BLOCK_SIZE
  }

  lemma TurnProgress(start: Fs, f: nat, pos: nat, len: nat, unit: nat, j: nat, top: nat)
    requires Progress(start, f, pos, len, unit, j, top) && j < len
    ensures Progress(start, f, pos, len, unit, j + unit, TopAfter(pos, j, top))
    ensures (pos + j) / BLOCK_SIZE <= top
      && (pos + j) / BLOCK_SIZE < TopAfter(pos, j, top) <= BlocksAfter(start.files[f], pos, len)
  {
    NextBlock(pos, len, j, top, DivCeil(pos + len, BLOCK_SIZE));
    ChunkEndsInBlock(pos, len, unit, j);
  }

  /** From position j on, a write from state fs makes the requests of a read of the superblock it ends in. */
  ghost predicate EndsIn(fs: Fs, f: nat, pos: nat, len: nat, unit: nat, j: nat, end: Fs) {
    && Entries(fs, f, pos, len) && Entries(end, f, pos, len) && 0 < unit && Run(end, f, pos, len, unit, j, false).ok
    && Run(fs, f, pos, len, unit, j, true) == Outcome(end, Run(end, f, pos, len, unit, j, false).rs, true)
  }

  /**
   In-order growth with enough free blocks: no assertion, exactly the missing blocks, and the
   addresses of the grown file.
  */
  lemma {:induction false} RunGrows(
    start: Fs, f: nat, pos: nat, len: nat, unit: nat, j: nat, top: nat, fs: Fs, end: Fs)
    requires Progress(start, f, pos, len, unit, j, top) && 0 < len
    requires fs == Grown(start, f, top) && Entries(fs, f, pos, len)
    requires end == Written(start, f, pos, len) && Entries(end, f, pos, len) && Mapped(end.files[f])
    requires end.files[f].nblock == BlocksAfter(start.files[f], pos, len)
    ensures EndsIn(fs, f, pos, len, unit, j, end)
    decreases len - j
  {
    if len <= j {
      WholeRangeGrown(start, f, pos, len, j, top);
      EndReached(end, f, pos, len, unit, j);
    } else {
      var top', fs' := GrowTurn(start, f, pos, len, unit, j, top, fs, end);
      RunGrows(start, f, pos, len, unit, j + unit, top', fs', end);
      GrownStep(fs, f, pos, len, unit, j, fs', end);
    }
  }

  lemma EndReached(fs: Fs, f: nat, pos: nat, len: nat, unit: nat, j: nat)
    requires Entries(fs, f, pos, len) && 0 < unit && len <= j
    ensures EndsIn(fs, f, pos, len, unit, j, fs)
  {
  }

  /** Touching block k, which the superblock the write ends in has, gives fs'. */
  ghost predicate Turns(fs: Fs, f: nat, k: nat, fs': Fs, end: Fs) {
    && Shape(fs) && f < |fs.files| && f < |end.files| && k < |fs.files[f].block| && k < |end.files[f].block|
    && fs' == Touch(fs, f, k, true)
    && 0 <= end.files[f].block[k] == fs'.files[f].block[k]
  }

  lemma GrowTurn(start: Fs, f: nat, pos: nat, len: nat, unit: nat, j: nat, top: nat, fs: Fs, end: Fs)
    returns (top': nat, fs': Fs)
    requires Progress(start, f, pos, len, unit, j, top) && j < len
    requires fs == Grown(start, f, top) && Entries(fs, f, pos, len)
    requires end == Written(start, f, pos, len) && Mapped(end.files[f])
    requires end.files[f].nblock == BlocksAfter(start.files[f], pos, len)
    ensures Progress(start, f, pos, len, unit, j + unit, top') && fs' == Grown(start, f, top')
    ensures Entries(fs', f, pos, len) && Turns(fs, f, (pos + j) / BLOCK_SIZE, fs', end)
  {
    top' := TopAfter(pos, j, top);
    TurnProgress(start, f, pos, len, unit, j, top);
    fs' := GrowTo(start, f, pos, len, (pos + j) / BLOCK_SIZE, top, top', fs, BlocksAfter(start.files[f], pos, len));
  }

  lemma GrowTo(start: Fs, f: nat, pos: nat, len: nat, k: nat, top: nat, top': nat, fs: Fs, all: nat) returns (fs': Fs)
    requires CanGrow(start, f, all) && start.files[f].nblock <= top <= all
    requires k <= top && top' == (if k == top then top + 1 else top) && top' <= all
    requires fs == Grown(start, f, top) && Entries(fs, f, pos, len)
    ensures k < all <= |fs.files[f].block| && fs' == Touch(fs, f, k, true) == Grown(start, f, top')
      && Entries(fs', f, pos, len)
    ensures fs'.files[f].block[k] == Grown(start, f, all).files[f].block[k]
  {
    TouchGrows(start, f, top, all, k, top');
    TouchEntries(fs, f, pos, len, k, true);
    fs' := Touch(fs, f, k, true);
  }

  /** If the rest of the loop makes the requests of a read of the grown file, so does the whole. */
  lemma GrownStep(fs: Fs, f: nat, pos: nat, len: nat, unit: nat, j: nat, fs': Fs, end: Fs)
    requires Entries(fs, f, pos, len) && j < len && Turns(fs, f, (pos + j) / BLOCK_SIZE, fs', end)
    requires EndsIn(fs', f, pos, len, unit, j + unit, end)
    ensures EndsIn(fs, f, pos, len, unit, j, end)
  {
    var b := end.files[f].block[(pos + j) / BLOCK_SIZE];
    RunStep(fs, f, pos, len, unit, j, true, fs', b);
    RunStep(end, f, pos, len, unit, j, false, end, b);
  }

  lemma RunStep(fs: Fs, f: nat, pos: nat, len: nat, unit: nat, j: nat, write: bool, fs': Fs, b: int)
    requires Entries(fs, f, pos, len) && 0 < unit && j < len && (pos + j) / BLOCK_SIZE < |fs.files[f].block|
    requires fs' == Touch(fs, f, (pos + j) / BLOCK_SIZE, write) && Entries(fs', f, pos, len)
    requires b == fs'.files[f].block[(pos + j) / BLOCK_SIZE] && 0 <= b
    ensures Run(fs, f, pos, len, unit, j, write) ==
      Issued([Chunk(BlockLba(b, pos + j), len, unit, j)], Run(fs', f, pos, len, unit, j + unit, write))
  {
  }

  lemma WholeRangeGrown(start: Fs, f: nat, pos: nat, len: nat, j: nat, top: nat)
    requires f < |start.files| && 0 < len <= j && pos + j <= top * BLOCK_SIZE
    requires start.files[f].nblock <= top <= BlocksAfter(start.files[f], pos, len)
    ensures top == BlocksAfter(start.files[f], pos, len)
  {
  }

  /**
   A batch of write_impl.  `counted` is rq_k when the loop ends: a break leaves it one short of
   the number of requests issued.
  */
  method IssueWrites(fs: Superblock, f: nat, pos: nat, len: nat, unit: nat, degree: nat, first: nat, issued: nat)
    returns (ok: bool, j: nat, rs: seq<Request>, rid: seq<nat>, counted: nat)
    requires Entries(fs.View(), f, pos, len) && 0 < unit && first < len && 0 < degree
    modifies fs
    ensures if ok then Ran(old(fs.View()), f, pos, len, unit, true, first, fs.View(), j, rs)
      else Stopped(old(fs.View()), f, pos, len, unit, true, first, fs.View(), rs)
    ensures rid == From(issued, |rs|)
    ensures ok ==> first < j && |rid| > 0 && counted == if len <= j then |rid| - 1 else |rid|
    ensures |rid| <= degree && (ok ==> len <= j || |rid| == degree)
  {
    ok, j, rs, rid, counted := true, first, [], [], 0;
    ghost var start := fs.View();
    while counted < degree
      invariant Ran(start, f, pos, len, unit, true, first, fs.View(), j, rs) && first <= j < len
        && (counted > 0 ==> first < j)
      invariant counted == |rs| <= degree && rid == From(issued, |rs|)
      decreases degree - counted
    {
      var r := IssueNext(fs, f, pos, len, unit, true, j, start, first, rs);
      if r.None? {
        return false, j, rs, rid, counted;
      }
      FromNext(issued, |rs|);
      rid := rid + [issued + |rs|];
      rs := rs + [r.value];
      j := j + unit;
      if len <= j {
        break;
      }
      counted := counted + 1;
    }
  }

  /** The same batch, seen from the beginning of the write. */
  method WriteBatch(fs: Superblock, f: nat, pos: nat, len: nat, unit: nat, degree: nat, first: nat,
                    ghost start: Fs, rs: seq<Request>)
    returns (ok: bool, j: nat, batch: seq<Request>, rid: seq<nat>, counted: nat)
    requires Ran(start, f, pos, len, unit, true, 0, fs.View(), first, rs) && first < len && 0 < degree
    modifies fs
    ensures if ok then Ran(start, f, pos, len, unit, true, 0, fs.View(), j, rs + batch)
      else Stopped(start, f, pos, len, unit, true, 0, fs.View(), rs + batch)
    ensures rid == From(|rs|, |batch|) && |rid| <= degree
    ensures ok ==> first < j && |rid| > 0 && counted == if len <= j then |rid| - 1 else |rid|
    ensures ok ==> len <= j || |rid| == degree
  {
    ghost var mid := fs.View();
    ok, j, batch, rid, counted := IssueWrites(fs, f, pos, len, unit, degree, first, |rs|);
    if ok {
      RanOn(start, f, pos, len, unit, true, 0, mid, first, rs, fs.View(), j, batch);
    }
  }

  /** What has been issued and polled after n requests of a write, all of them or not. */
  predicate WriteActs(acts: seq<Act>, n: nat, degree: nat, all: bool)
    requires 0 < degree
  {
    if all then acts == BatchesButLast(n, degree) else acts == Batches(n, degree) && Whole(n, degree)
  }

  /** The polls of a batch of a write. */
  method PollWrites(rid: seq<nat>, counted: nat, ghost first: nat, acts: seq<Act>, ghost degree: nat, ghost all: bool)
    returns (r: seq<Act>)
    requires rid == From(first, |rid|) && 0 < |rid| <= degree && WriteActs(acts, first, degree, false)
    requires counted == (if all then |rid| - 1 else |rid|) && (all || |rid| == degree)
    ensures WriteActs(r, first + |rid|, degree, all)
  {
    BatchesNext(first, |rid|, degree);
    r := PollBatch(rid, counted, first, acts);
  }

  /** The batches of write_impl. */
  method WriteBatches(fs: Superblock, f: nat, pos: nat, len: nat, unit: nat, degree: nat)
    returns (ok: bool, rs: seq<Request>, acts: seq<Act>)
    requires Entries(fs.View(), f, pos, len) && 0 < unit && 0 < degree && 0 < len
    modifies fs
    ensures Outcome(fs.View(), rs, ok) == Run(old(fs.View()), f, pos, len, unit, 0, true)
    ensures ok ==> acts == BatchesButLast(|rs|, degree)
  {
    rs, acts := [], [];
    var j: nat := 0;
    while j < len
      invariant Ran(old(fs.View()), f, pos, len, unit, true, 0, fs.View(), j, rs)
      invariant WriteActs(acts, |rs|, degree, len <= j)
      decreases len - j
    {
      var batch, rid, counted;
      ok, j, batch, rid, counted := WriteBatch(fs, f, pos, len, unit, degree, j, old(fs.View()), rs);
      if !ok {
        rs := rs + batch;
        return;
      }
      acts := PollWrites(rid, counted, |rs|, acts, degree, len <= j);
      rs := rs + batch;
    }
    ok := true;
  }

  /**
   write_impl.  Unless the assertion in myfs_get_lba stops it, it issues requests that tile the
   whole range, in batches of up to `degree`, and returns having polled every one except the last it
   issued.  For a range that starts inside the file or at its end, with enough free blocks, the assertion
   holds, exactly the blocks the range needs are allocated, and every request has the address of its offset.
  */
  method WriteImpl(fs: Superblock, f: nat, len: nat, pos: nat, degree: nat)
    returns (ok: bool, rs: seq<Request>, acts: seq<Act>)
    requires Entries(fs.View(), f, pos, len) && pos % SECTOR == 0 && 0 < degree
    modifies fs
    ensures ok ==> Tiles(rs, 0, len) && acts == BatchesButLast(|rs|, degree)
    ensures ok ==> |rs| == WriteCount(pos, len)
    ensures AllInUnits(rs, pos)
    ensures 0 < len ==> Outcome(fs.View(), rs, ok) == Run(old(fs.View()), f, pos, len, WriteUnit(pos, len), 0, true)
    ensures old(CanWrite(fs.View(), f, pos, len)) ==>
      ok && fs.View() == Written(old(fs.View()), f, pos, len) && AllGood(rs, fs.files[f], pos, len)
    ensures old(CanWrite(fs.View(), f, pos, len) && Inv(fs.View()) && fs.files[f].name != "") ==> Inv(fs.View())
  {
    ghost var start := fs.View();
    ok, rs, acts := true, [], [];
    if 0 < len {
      var unit := WriteUnit(pos, len);
      UnitsAreUnits(pos, len);
      ok, rs, acts := WriteBatches(fs, f, pos, len, unit, degree);
      RunTiles(start, f, pos, len, unit, 0, true);
      RunCount(start, f, pos, len, unit, 0, true);
      CountsChosen(pos, len);
      RunInUnits(start, f, pos, len, unit, 0, true);
      if CanWrite(start, f, pos, len) {
        InOrderWrite(start, f, pos, len, unit);
      }
    }
    if CanWrite(start, f, pos, len) && Inv(start) && start.files[f].name != "" {
      WrittenKeeps(start, f, pos, len);
    }
  }

  lemma InOrderWrite(start: Fs, f: nat, pos: nat, len: nat, unit: nat)
    requires CanWrite(start, f, pos, len) && Entries(start, f, pos, len)
    requires pos % SECTOR == 0 && 0 < len && AtUnit(pos, len, unit, 0)
    ensures var o := Run(start, f, pos, len, unit, 0, true);
      o.ok && o.fs == Written(start, f, pos, len) && AllGood(o.rs, o.fs.files[f], pos, len)
  {
    WrittenIsMapped(start, f, pos, len);
    var end := Written(start, f, pos, len);
    GrownNumbered(start, f, BlocksAfter(start.files[f], pos, len));
    RunGrows(start, f, pos, len, unit, 0, start.files[f].nblock, start, end);
    ReadRunGood(end, f, pos, len, unit, 0);
  }

  lemma {:induction false} GrownNumbered(fs: Fs, f: nat, n: nat)
    requires Numbered(fs, f) && n <= |fs.files[f].block|
    ensures Numbered(Grown(fs, f, n), f)
  {
    if fs.files[f].nblock < n {
      GrownNumbered(fs, f, n - 1);
    }
  }

  /** Block conservation over a whole write. */
  lemma WrittenKeeps(fs: Fs, f: nat, pos: nat, len: nat)
    requires CanWrite(fs, f, pos, len) && Inv(fs) && fs.files[f].name != ""
    ensures Inv(Written(fs, f, pos, len))
  {
    GrownKeeps(fs, f, BlocksAfter(fs.files[f], pos, len));
  }
}
