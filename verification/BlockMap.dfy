/**
 The superblock of mylib/myfs.c as a value: a ring of free block numbers and one block table
 per file.  The ring has one entry more than there are blocks, so `rp == wp` means empty.
 A read-modify-write of rp or wp and the ring access that follows it are one step.
*/
module BlockMap {

  const INACTIVE := -1

  /** `isOpen` and `unlinked` are the two flags of a file and `refs` is its 16-bit reference count. */
  datatype File = File(name: string, block: seq<int>, nblock: nat, isOpen: bool, unlinked: bool, refs: nat)

  /** Reference counts wrap at this number. */
  const COUNTS := 65536

  function Lower(refs: nat): (r: nat)
    ensures refs < COUNTS ==> r == if refs == 0 then COUNTS - 1 else refs - 1
  {
    (refs + COUNTS - 1) % COUNTS
  }

  datatype Fs = Fs(ring: seq<int>, rp: nat, wp: nat, files: seq<File>)

  predicate Shape(fs: Fs) {
    && 2 <= |fs.ring|
    && fs.rp < |fs.ring| && fs.wp < |fs.ring|
  }

  function Next(i: nat, n: nat): (r: nat)
    requires i < n
    ensures r < n
  {
    if i + 1 == n then 0 else i + 1
  }

  /** Number of free blocks: the ring entries from rp up to wp. */
  function Free(fs: Fs): (k: nat)
    requires Shape(fs)
    ensures k < |fs.ring|
  {
    if fs.rp <= fs.wp then fs.wp - fs.rp else |fs.ring| - fs.rp + fs.wp
  }

  /** Ring entry i holds a free block. */
  predicate LiveEntry(fs: Fs, i: int)
    requires Shape(fs)
  {
    if fs.rp <= fs.wp then fs.rp <= i < fs.wp else fs.rp <= i < |fs.ring| || 0 <= i < fs.wp
  }

  /** myfs_superblock_init on a zeroed superblock with room for `nf` files of `mb` blocks. */
  function Init(nb: nat, nf: nat, mb: nat): Fs
    requires 2 <= nb
  {
    Fs(seq(nb, i => if i < nb - 1 then i else 0), 0, nb - 1,
       seq(nf, _ => File("", seq(mb, _ => INACTIVE), 0, false, false, 0)))
  }

  // ---------------------------------------------------------------- operations

  /** The allocating branch of myfs_get_lba. */
  function Allocate(fs: Fs, f: nat, j: nat): Fs
    requires Shape(fs) && f < |fs.files| && j < |fs.files[f].block|
  {
    var file := fs.files[f];
    fs.(files := fs.files[f := file.(block := file.block[j := fs.ring[fs.rp]], nblock := file.nblock + 1)],
        rp := Next(fs.rp, |fs.ring|))
  }

  /** The state in which myfs_get_lba reads the block table: a write may have allocated. */
  function Touch(fs: Fs, f: nat, j: nat, write: bool): (r: Fs)
    requires Shape(fs) && f < |fs.files| && j < |fs.files[f].block|
    ensures |r.files| == |fs.files| && |r.files[f].block| == |fs.files[f].block|
  {
    if write && fs.files[f].block[j] == INACTIVE then Allocate(fs, f, j) else fs
  }

  /** One turn of the loop of __myfs_unlink. */
  function FreeOne(fs: Fs, f: nat, j: nat): Fs
    requires Shape(fs) && f < |fs.files| && j < |fs.files[f].block|
  {
    var file := fs.files[f];
    fs.(ring := fs.ring[fs.wp := file.block[j]],
        wp := Next(fs.wp, |fs.ring|),
        files := fs.files[f := file.(block := file.block[j := INACTIVE])])
  }

  /** The first k turns of the loop of __myfs_unlink. */
  function FreeFirst(fs: Fs, f: nat, k: nat): (r: Fs)
    requires Shape(fs) && f < |fs.files| && k <= |fs.files[f].block|
    ensures Shape(r) && |r.ring| == |fs.ring| && |r.files| == |fs.files| && r.rp == fs.rp
    ensures forall g :: 0 <= g < |fs.files| && g != f ==> r.files[g] == fs.files[g]
    ensures r.files[f] == fs.files[f].(block := r.files[f].block)
    ensures |r.files[f].block| == |fs.files[f].block|
    ensures forall j :: 0 <= j < |fs.files[f].block| ==>
      r.files[f].block[j] == if j < k then INACTIVE else fs.files[f].block[j]
  {
    if k == 0 then fs else FreeOne(FreeFirst(fs, f, k - 1), f, k - 1)
  }

  function Unlink(fs: Fs, f: nat): Fs
    requires Shape(fs) && f < |fs.files| && fs.files[f].nblock <= |fs.files[f].block|
  {
    var r := FreeFirst(fs, f, fs.files[f].nblock);
    r.(files := r.files[f := r.files[f].(name := "", nblock := 0, isOpen := false, unlinked := false, refs := 0)])
  }

  /** __myfs_try_unlink: a file in use is only marked. */
  function TryUnlink(fs: Fs, f: nat): Fs
    requires Shape(fs) && f < |fs.files| && fs.files[f].nblock <= |fs.files[f].block|
  {
    var marked := fs.(files := fs.files[f := fs.files[f].(unlinked := true)]);
    if fs.files[f].refs == 0 then Unlink(marked, f) else marked
  }

  /** The file myfs_open settles on: the first whose name starts with `name`, else the first unused. */
  predicate Matches(fs: Fs, f: int, name: string) {
    0 <= f < |fs.files| && name <= fs.files[f].name
  }

  ghost predicate Opens(fs: Fs, name: string, f: nat) {
    && f < |fs.files|
    && if exists g :: Matches(fs, g, name)
       then Matches(fs, f, name) && forall g :: 0 <= g < f ==> !Matches(fs, g, name)
       else fs.files[f].name == "" && forall g :: 0 <= g < f ==> fs.files[g].name != ""
  }

  function OpenAt(fs: Fs, name: string, f: nat): Fs
    requires f < |fs.files|
  {
    var file := fs.files[f];
    if Matches(fs, f, name) then fs.(files := fs.files[f := file.(isOpen := true, unlinked := false)])
    else fs.(files := fs.files[f := file.(name := name, nblock := 0, isOpen := true, unlinked := false)])
  }

  /** myfs_increment_ref: a file that is not open, or marked, is not counted. */
  function CountUp(fs: Fs, f: nat): Fs
    requires f < |fs.files|
  {
    var file := fs.files[f];
    if file.isOpen && !file.unlinked then fs.(files := fs.files[f := file.(refs := (file.refs + 1) % COUNTS)]) else fs
  }

  /** myfs_decrement_ref, which tests the count it found, not the one it leaves. */
  function CountDown(fs: Fs, f: nat): Fs
    requires Shape(fs) && f < |fs.files| && fs.files[f].nblock <= |fs.files[f].block|
  {
    var file := fs.files[f];
    var fs' := fs.(files := fs.files[f := file.(refs := Lower(file.refs))]);
    if file.refs == 0 && file.unlinked then TryUnlink(fs', f) else fs'
  }

  /** myfs_close. */
  function Closed(fs: Fs, f: nat): Fs
    requires f < |fs.files|
  {
    fs.(files := fs.files[f := fs.files[f].(isOpen := !fs.files[f].isOpen)])
  }

  /** A release never frees anything: a count found at 0 has become 65535 by the time the unlink looks at it. */
  lemma ReleaseFreesNothing(fs: Fs, f: nat)
    requires Shape(fs) && f < |fs.files| && fs.files[f].nblock <= |fs.files[f].block|
    ensures var fs', file := CountDown(fs, f), fs.files[f];
      fs' == fs.(files := fs.files[f := file.(refs := Lower(file.refs))])
  {
  }

  // ---------------------------------------------------------------- the invariant

  /** Where a block number is: in a ring entry or in a file's table. */
  datatype Place = Ring(i: nat) | Table(f: nat, j: nat)

  predicate Cell(fs: Fs, f: int, j: int) {
    0 <= f < |fs.files| && 0 <= j < |fs.files[f].block|
  }

  /**
   `w` gives every block number its only place: the live ring entries and the active table
   cells are in one-to-one correspondence with the block numbers 0 .. |ring|-2.
  */
  ghost predicate Placed(fs: Fs, w: seq<Place>) {
    && Shape(fs)
    && |w| == |fs.ring| - 1
    && (forall i :: EntryPlaced(fs, w, i))
    && (forall f, j :: CellPlaced(fs, w, f, j))
    && (forall b :: BlockPlaced(fs, w, b))
  }

  /** A live ring entry holds a block number whose place it is. */
  predicate EntryPlaced(fs: Fs, w: seq<Place>, i: int)
    requires Shape(fs)
  {
    0 <= i < |fs.ring| && LiveEntry(fs, i) ==> 0 <= fs.ring[i] < |w| && w[fs.ring[i]] == Ring(i)
  }

  /** So does an active cell. */
  predicate CellPlaced(fs: Fs, w: seq<Place>, f: int, j: int) {
    Cell(fs, f, j) && fs.files[f].block[j] != INACTIVE ==>
      0 <= fs.files[f].block[j] < |w| && w[fs.files[f].block[j]] == Table(f, j)
  }

  /** And the place of a block number holds it. */
  predicate BlockPlaced(fs: Fs, w: seq<Place>, b: int)
    requires Shape(fs)
  {
    0 <= b < |w| ==> HoldsAt(fs, b, w[b])
  }

  predicate HoldsAt(fs: Fs, b: nat, p: Place)
    requires Shape(fs)
  {
    match p
    case Ring(i) => i < |fs.ring| && LiveEntry(fs, i) && fs.ring[i] == b
    case Table(f, j) => Cell(fs, f, j) && fs.files[f].block[j] == b
  }

  /** A file's active blocks are its first `nblock`. */
  predicate Compact(file: File) {
    && file.nblock <= |file.block|
    && (forall j :: 0 <= j < |file.block| ==> (file.block[j] != INACTIVE <==> j < file.nblock))
    && (file.name == "" ==> file.nblock == 0)
  }

  predicate AllCompact(fs: Fs) {
    forall f :: 0 <= f < |fs.files| ==> Compact(fs.files[f])
  }

  function Owned(files: seq<File>): nat {
    if files == [] then 0 else files[|files| - 1].nblock + Owned(files[..|files| - 1])
  }

  ghost predicate Inv(fs: Fs) {
    && AllCompact(fs)
    && (exists w :: Placed(fs, w))
    && Free(fs) + Owned(fs.files) == |fs.ring| - 1
  }

  lemma {:induction false} OwnedUpdate(files: seq<File>, f: nat, file: File)
    requires f < |files|
    ensures Owned(files[f := file]) == Owned(files) - files[f].nblock + file.nblock
  {
    var k := |files| - 1;
    if f == k {
      assert files[f := file][..k] == files[..k];
    } else {
      OwnedUpdate(files[..k], f, file);
      assert files[f := file][..k] == files[..k][f := file];
    }
  }

  lemma {:induction false} OwnedZero(files: seq<File>)
    requires forall f :: 0 <= f < |files| ==> files[f].nblock == 0
    ensures Owned(files) == 0
  {
    if files != [] {
      OwnedZero(files[..|files| - 1]);
    }
  }

  lemma InitInv(nb: nat, nf: nat, mb: nat)
    requires 2 <= nb
    ensures Inv(Init(nb, nf, mb))
  {
    var fs := Init(nb, nf, mb);
    var w := seq(nb - 1, i requires 0 <= i < nb - 1 => Ring(i));
    assert Placed(fs, w);
    OwnedZero(fs.files);
  }

  // ---------------------------------------------------------------- preservation

  lemma AllocatePlaced(fs: Fs, f: nat, j: nat, w: seq<Place>)
    requires Placed(fs, w) && Cell(fs, f, j) && fs.files[f].block[j] == INACTIVE && 0 < Free(fs)
    ensures 0 <= fs.ring[fs.rp] < |w| && Placed(Allocate(fs, f, j), w[fs.ring[fs.rp] := Table(f, j)])
    ensures Free(Allocate(fs, f, j)) == Free(fs) - 1
  {
    var fs' := Allocate(fs, f, j);
    assert LiveEntry(fs, fs.rp) && EntryPlaced(fs, w, fs.rp);
    var w' := w[fs.ring[fs.rp] := Table(f, j)];
    forall i ensures EntryPlaced(fs', w', i) {
      assert EntryPlaced(fs, w, i);
    }
    forall b ensures BlockPlaced(fs', w', b) {
      assert BlockPlaced(fs, w, b);
    }
    forall g, k ensures CellPlaced(fs', w', g, k) {
      assert CellPlaced(fs, w, g, k);
    }
  }

  /** Writing to the next block of a file keeps the partition while the ring is not empty. */
  lemma TouchKeeps(fs: Fs, f: nat, j: nat)
    requires Inv(fs) && f < |fs.files| && j < |fs.files[f].block|
    requires fs.files[f].block[j] == INACTIVE ==> j == fs.files[f].nblock && 0 < Free(fs) && fs.files[f].name != ""
    ensures Inv(Touch(fs, f, j, true))
  {
    if fs.files[f].block[j] == INACTIVE {
      var w :| Placed(fs, w);
      AllocatePlaced(fs, f, j, w);
      var fs' := Allocate(fs, f, j);
      OwnedUpdate(fs.files, f, fs'.files[f]);
      assert Placed(fs', w[fs.ring[fs.rp] := Table(f, j)]);
    }
  }

  lemma FreeOnePlaced(fs: Fs, f: nat, j: nat, w: seq<Place>)
    requires Placed(fs, w) && Cell(fs, f, j) && fs.files[f].block[j] != INACTIVE && Free(fs) < |fs.ring| - 1
    ensures 0 <= fs.files[f].block[j] < |w| && Placed(FreeOne(fs, f, j), w[fs.files[f].block[j] := Ring(fs.wp)])
    ensures Free(FreeOne(fs, f, j)) == Free(fs) + 1
  {
    var fs' := FreeOne(fs, f, j);
    assert CellPlaced(fs, w, f, j);
    var w' := w[fs.files[f].block[j] := Ring(fs.wp)];
    forall i ensures EntryPlaced(fs', w', i) {
      assert EntryPlaced(fs, w, i);
    }
    forall b ensures BlockPlaced(fs', w', b) {
      assert BlockPlaced(fs, w, b);
    }
    forall g, k ensures CellPlaced(fs', w', g, k) {
      assert CellPlaced(fs, w, g, k);
    }
  }

  lemma NextTurn(fs: Fs, f: nat, k: nat)
    requires Shape(fs) && f < |fs.files| && 0 < k <= |fs.files[f].block|
    ensures var mid := FreeFirst(fs, f, k - 1);
      Cell(mid, f, k - 1) && mid.files[f].block[k - 1] == fs.files[f].block[k - 1]
        && FreeFirst(fs, f, k) == FreeOne(mid, f, k - 1)
  {
  }

  lemma PlaceFreed(fs: Fs, f: nat, j: nat, w: seq<Place>, fs': Fs) returns (w': seq<Place>)
    requires Placed(fs, w) && Cell(fs, f, j) && fs.files[f].block[j] != INACTIVE && Free(fs) < |fs.ring| - 1
    requires fs' == FreeOne(fs, f, j)
    ensures Placed(fs', w') && Free(fs') == Free(fs) + 1
  {
    FreeOnePlaced(fs, f, j, w);
    w' := w[fs.files[f].block[j] := Ring(fs.wp)];
  }

  lemma {:induction false} FreeFirstTail(fs: Fs, f: nat, k: nat)
    requires Shape(fs) && f < |fs.files| && k <= |fs.files[f].block| && Free(fs) + k <= |fs.ring| - 1
    ensures Free(FreeFirst(fs, f, k)) == Free(fs) + k
    ensures FreeFirst(fs, f, k).wp == if fs.wp + k < |fs.ring| then fs.wp + k else fs.wp + k - |fs.ring|
  {
    if 0 < k {
      FreeFirstTail(fs, f, k - 1);
    }
  }

  lemma {:induction false} FreeFirstPlaced(fs: Fs, f: nat, k: nat, w: seq<Place>) returns (w': seq<Place>)
    requires Placed(fs, w) && f < |fs.files| && k <= |fs.files[f].block|
    requires forall j :: 0 <= j < k ==> fs.files[f].block[j] != INACTIVE
    requires Free(fs) + k <= |fs.ring| - 1
    ensures Placed(FreeFirst(fs, f, k), w')
  {
    if k == 0 {
      return w;
    }
    var v := FreeFirstPlaced(fs, f, k - 1, w);
    FreeFirstTail(fs, f, k - 1);
    NextTurn(fs, f, k);
    w' := PlaceFreed(FreeFirst(fs, f, k - 1), f, k - 1, v, FreeFirst(fs, f, k));
  }

  lemma {:induction false} OwnedAtLeast(files: seq<File>, f: nat)
    requires f < |files|
    ensures files[f].nblock <= Owned(files)
  {
    if f < |files| - 1 {
      OwnedAtLeast(files[..|files| - 1], f);
    }
  }

  lemma PlacedIgnoresNames(fs: Fs, fs': Fs, w: seq<Place>)
    requires Placed(fs, w) && fs'.ring == fs.ring && fs'.rp == fs.rp && fs'.wp == fs.wp
    requires |fs'.files| == |fs.files| && forall f :: 0 <= f < |fs.files| ==> fs'.files[f].block == fs.files[f].block
    ensures Placed(fs', w)
  {
    forall i ensures EntryPlaced(fs', w, i) {
      assert EntryPlaced(fs, w, i);
    }
    forall b ensures BlockPlaced(fs', w, b) {
      assert BlockPlaced(fs, w, b);
    }
    forall g, k ensures CellPlaced(fs', w, g, k) {
      assert CellPlaced(fs, w, g, k);
    }
  }

  lemma UnlinkFiles(fs: Fs, f: nat)
    requires Shape(fs) && AllCompact(fs) && f < |fs.files|
    ensures AllCompact(Unlink(fs, f))
    ensures Owned(Unlink(fs, f).files) == Owned(fs.files) - fs.files[f].nblock
  {
    var fs' := Unlink(fs, f);
    assert fs'.files == fs.files[f := fs'.files[f]];
    OwnedUpdate(fs.files, f, fs'.files[f]);
  }

  lemma UnlinkPlaced(fs: Fs, f: nat, w: seq<Place>)
    requires Placed(fs, w) && f < |fs.files| && Compact(fs.files[f])
    requires Free(fs) + fs.files[f].nblock <= |fs.ring| - 1
    ensures exists w' :: Placed(Unlink(fs, f), w')
    ensures Free(Unlink(fs, f)) == Free(fs) + fs.files[f].nblock
  {
    var n := fs.files[f].nblock;
    var w' := FreeFirstPlaced(fs, f, n, w);
    FreeFirstTail(fs, f, n);
    PlacedIgnoresNames(FreeFirst(fs, f, n), Unlink(fs, f), w');
  }

  /** Unlinking a file returns all its blocks to the ring and loses none. */
  lemma UnlinkKeeps(fs: Fs, f: nat)
    requires Inv(fs) && f < |fs.files|
    ensures Inv(Unlink(fs, f))
    ensures Free(Unlink(fs, f)) == Free(fs) + fs.files[f].nblock
  {
    var w :| Placed(fs, w);
    OwnedAtLeast(fs.files, f);
    UnlinkPlaced(fs, f, w);
    UnlinkFiles(fs, f);
  }

  lemma TryUnlinkKeeps(fs: Fs, f: nat)
    requires Inv(fs) && f < |fs.files|
    ensures Inv(TryUnlink(fs, f))
  {
    var marked := fs.(files := fs.files[f := fs.files[f].(unlinked := true)]);
    var w :| Placed(fs, w);
    PlacedIgnoresNames(fs, marked, w);
    OwnedUpdate(fs.files, f, marked.files[f]);
    if fs.files[f].refs == 0 {
      UnlinkKeeps(marked, f);
    }
  }

  lemma OpenKeeps(fs: Fs, name: string, f: nat)
    requires Inv(fs) && Opens(fs, name, f)
    ensures Inv(OpenAt(fs, name, f))
  {
    var fs' := OpenAt(fs, name, f);
    var w :| Placed(fs, w);
    PlacedIgnoresNames(fs, fs', w);
    OwnedUpdate(fs.files, f, fs'.files[f]);
    if name == "" {
      assert Matches(fs, f, name) <==> true;
    }
  }

  // ---------------------------------------------------------------- looking up and growing one file

  /** The file's first `nblock` cells name blocks and the others are inactive. */
  predicate Mapped(file: File) {
    && file.nblock <= |file.block|
    && (forall j :: 0 <= j < |file.block| ==> if j < file.nblock then 0 <= file.block[j] else file.block[j] == INACTIVE)
  }

  predicate FreeEntriesGood(fs: Fs)
    requires Shape(fs)
  {
    forall i :: 0 <= i < |fs.ring| && LiveEntry(fs, i) ==> 0 <= fs.ring[i]
  }

  lemma InvMapped(fs: Fs, f: nat)
    requires Inv(fs) && f < |fs.files|
    ensures Mapped(fs.files[f]) && FreeEntriesGood(fs)
    ensures forall j :: 0 <= j < fs.files[f].nblock ==> fs.files[f].block[j] < |fs.ring| - 1
  {
    var w :| Placed(fs, w);
    forall j | 0 <= j < |fs.files[f].block|
      ensures if j < fs.files[f].nblock then 0 <= fs.files[f].block[j] < |w| else fs.files[f].block[j] == INACTIVE
    {
      assert CellPlaced(fs, w, f, j);
    }
    forall i | 0 <= i < |fs.ring| && LiveEntry(fs, i) ensures 0 <= fs.ring[i] {
      assert EntryPlaced(fs, w, i);
    }
  }

  /** The superblock after file f has grown to n blocks, one at a time. */
  function Grown(fs: Fs, f: nat, n: nat): (r: Fs)
    requires Shape(fs) && f < |fs.files| && n <= |fs.files[f].block|
    ensures Shape(r) && |r.files| == |fs.files| && |r.files[f].block| == |fs.files[f].block|
    decreases n
  {
    if n <= fs.files[f].nblock then fs else Allocate(Grown(fs, f, n - 1), f, n - 1)
  }

  lemma AllocateShape(fs: Fs, f: nat)
    requires Shape(fs) && f < |fs.files| && Mapped(fs.files[f]) && fs.files[f].nblock < |fs.files[f].block|
    requires FreeEntriesGood(fs) && 0 < Free(fs)
    ensures var r := Allocate(fs, f, fs.files[f].nblock);
      Mapped(r.files[f]) && FreeEntriesGood(r) && Free(r) == Free(fs) - 1
  {
    var r := Allocate(fs, f, fs.files[f].nblock);
    assert LiveEntry(fs, fs.rp);
    forall i | 0 <= i < |r.ring| && LiveEntry(r, i) ensures 0 <= r.ring[i] {
      assert LiveEntry(fs, i);
    }
  }

  lemma {:induction false} GrownShape(fs: Fs, f: nat, n: nat)
    requires Shape(fs) && f < |fs.files| && fs.files[f].nblock <= n <= |fs.files[f].block|
    requires Mapped(fs.files[f]) && FreeEntriesGood(fs) && n - fs.files[f].nblock <= Free(fs)
    ensures var r := Grown(fs, f, n);
      && r.files[f].nblock == n && Mapped(r.files[f]) && FreeEntriesGood(r)
      && Free(r) == Free(fs) - (n - fs.files[f].nblock) && r.files[f].name == fs.files[f].name
  {
    if fs.files[f].nblock < n {
      GrownShape(fs, f, n - 1);
      AllocateShape(Grown(fs, f, n - 1), f);
    }
  }

  /** Growing further changes no block the file already has. */
  lemma {:induction false} GrownExtends(fs: Fs, f: nat, m: nat, n: nat)
    requires Shape(fs) && f < |fs.files| && fs.files[f].nblock <= m <= n <= |fs.files[f].block|
    ensures forall j :: 0 <= j < m ==> Grown(fs, f, n).files[f].block[j] == Grown(fs, f, m).files[f].block[j]
  {
    if m < n {
      GrownExtends(fs, f, m, n - 1);
    }
  }

  lemma {:induction false} GrownKeeps(fs: Fs, f: nat, n: nat)
    requires Inv(fs) && f < |fs.files| && fs.files[f].nblock <= n <= |fs.files[f].block|
    requires n - fs.files[f].nblock <= Free(fs) && fs.files[f].name != ""
    ensures Inv(Grown(fs, f, n))
  {
    if fs.files[f].nblock < n {
      GrownKeeps(fs, f, n - 1);
      InvMapped(fs, f);
      GrownShape(fs, f, n - 1);
      AllocateKeeps(Grown(fs, f, n - 1), f, n - 1);
    }
  }

  lemma AllocateKeeps(fs: Fs, f: nat, j: nat)
    requires Inv(fs) && f < |fs.files| && j == fs.files[f].nblock < |fs.files[f].block| && 0 < Free(fs)
      && fs.files[f].name != ""
    ensures Inv(Allocate(fs, f, j))
  {
    assert Compact(fs.files[f]);
    TouchKeeps(fs, f, j);
  }

  // ---------------------------------------------------------------- runs and main results

  datatype Event =
    | Open(name: string, f: nat) | Write(f: nat, j: nat) | Drop(f: nat)
    | Hold(f: nat) | Release(f: nat) | Close(f: nat)

  /**
   What callers may do: a write touches an active block or the next one of a named file, and a
   new block is asked for only while one is free (the code does not check either).
  */
  ghost predicate Enabled(fs: Fs, e: Event) {
    Shape(fs) &&
    match e
    case Open(name, f) => Opens(fs, name, f)
    case Write(f, j) =>
      && Cell(fs, f, j)
      && (fs.files[f].block[j] == INACTIVE ==> j == fs.files[f].nblock && 0 < Free(fs) && fs.files[f].name != "")
    case Drop(f) => f < |fs.files| && fs.files[f].nblock <= |fs.files[f].block|
    case Hold(f) => f < |fs.files|
    case Release(f) => f < |fs.files| && fs.files[f].nblock <= |fs.files[f].block|
    case Close(f) => f < |fs.files|
  }

  ghost function Step(fs: Fs, e: Event): Fs
    requires Enabled(fs, e)
  {
    match e
    case Open(name, f) => OpenAt(fs, name, f)
    case Write(f, j) => Touch(fs, f, j, true)
    case Drop(f) => TryUnlink(fs, f)
    case Hold(f) => CountUp(fs, f)
    case Release(f) => CountDown(fs, f)
    case Close(f) => Closed(fs, f)
  }

  ghost predicate Reaches(fs: Fs, es: seq<Event>, fs': Fs)
    decreases |es|
  {
    if es == [] then fs' == fs
    else Enabled(fs, es[0]) && Reaches(Step(fs, es[0]), es[1..], fs')
  }

  lemma StepKeeps(fs: Fs, e: Event)
    requires Inv(fs) && Enabled(fs, e)
    ensures Inv(Step(fs, e))
  {
    match e
    case Open(name, f) => OpenKeeps(fs, name, f);
    case Write(f, j) => TouchKeeps(fs, f, j);
    case Drop(f) => TryUnlinkKeeps(fs, f);
    case _ => CountKeeps(fs, e);
  }

  lemma CountKeeps(fs: Fs, e: Event)
    requires Inv(fs) && Enabled(fs, e) && (e.Hold? || e.Release? || e.Close?)
    ensures Inv(Step(fs, e))
  {
    var w :| Placed(fs, w);
    if e.Release? {
      ReleaseFreesNothing(fs, e.f);
    }
    PlacedIgnoresNames(fs, Step(fs, e), w);
    OwnedUpdate(fs.files, e.f, Step(fs, e).files[e.f]);
  }

  lemma {:induction false} RunKeeps(fs: Fs, es: seq<Event>, fs': Fs)
    requires Inv(fs) && Reaches(fs, es, fs')
    ensures Inv(fs')
    decreases |es|
  {
    if es != [] {
      StepKeeps(fs, es[0]);
      RunKeeps(Step(fs, es[0]), es[1..], fs');
    }
  }

  ghost predicate InRing(fs: Fs, b: int)
    requires Shape(fs)
  {
    exists i :: 0 <= i < |fs.ring| && LiveEntry(fs, i) && fs.ring[i] == b
  }

  ghost predicate InTable(fs: Fs, b: int) {
    exists f, j :: Cell(fs, f, j) && j < fs.files[f].nblock && fs.files[f].block[j] == b
  }

  /**
   Block conservation.  After any run of opens, in-order writes and unlinks, every block number
   is either free or owned and never both, no live ring entry or owned cell repeats another, and
   free and owned blocks add up to all of them.
  */
  lemma BlocksConserved(nb: nat, nf: nat, mb: nat, es: seq<Event>, fs: Fs)
    requires 2 <= nb && Reaches(Init(nb, nf, mb), es, fs)
    ensures Shape(fs) && |fs.ring| == nb && Free(fs) + Owned(fs.files) == nb - 1
    ensures forall b :: 0 <= b < nb - 1 ==> (InRing(fs, b) <==> !InTable(fs, b))
    ensures forall i, k :: 0 <= i < k < nb && LiveEntry(fs, i) && LiveEntry(fs, k) ==> fs.ring[i] != fs.ring[k]
    ensures forall f, j, g, k :: (Cell(fs, f, j) && Cell(fs, g, k) && j < fs.files[f].nblock && k < fs.files[g].nblock
      && fs.files[f].block[j] == fs.files[g].block[k]) ==> f == g && j == k
  {
    InitInv(nb, nf, mb);
    RunKeeps(Init(nb, nf, mb), es, fs);
    RingSizeFixed(Init(nb, nf, mb), es, fs);
    var w :| Placed(fs, w);
    forall b | 0 <= b < nb - 1 ensures InRing(fs, b) <==> !InTable(fs, b) {
      OnePlace(fs, w, b);
    }
    forall i, k | 0 <= i < k < nb && LiveEntry(fs, i) && LiveEntry(fs, k) ensures fs.ring[i] != fs.ring[k] {
      assert EntryPlaced(fs, w, i) && EntryPlaced(fs, w, k);
    }
    forall f, j, g, k | Cell(fs, f, j) && Cell(fs, g, k) && j < fs.files[f].nblock && k < fs.files[g].nblock
        && fs.files[f].block[j] == fs.files[g].block[k]
      ensures f == g && j == k
    {
      CellsDiffer(fs, w, f, j, g, k);
    }
  }

  lemma CellsDiffer(fs: Fs, w: seq<Place>, f: int, j: int, g: int, k: int)
    requires Placed(fs, w) && AllCompact(fs) && Cell(fs, f, j) && Cell(fs, g, k)
    requires j < fs.files[f].nblock && fs.files[f].block[j] == fs.files[g].block[k]
    ensures f == g && j == k
  {
    assert Compact(fs.files[f]) && CellPlaced(fs, w, f, j) && CellPlaced(fs, w, g, k);
  }

  /** A block number is in the ring or in a table as its place says. */
  lemma OnePlace(fs: Fs, w: seq<Place>, b: nat)
    requires Placed(fs, w) && AllCompact(fs) && b < |w|
    ensures InRing(fs, b) <==> w[b].Ring?
    ensures InTable(fs, b) <==> w[b].Table?
  {
    assert BlockPlaced(fs, w, b);
    forall i | 0 <= i < |fs.ring| && LiveEntry(fs, i) && fs.ring[i] == b ensures w[b].Ring? {
      assert EntryPlaced(fs, w, i);
    }
    forall f, j | Cell(fs, f, j) && j < fs.files[f].nblock && fs.files[f].block[j] == b ensures w[b].Table? {
      assert CellPlaced(fs, w, f, j);
    }
    if w[b].Table? {
      assert Compact(fs.files[w[b].f]);
    }
  }

  lemma {:induction false} RingSizeFixed(fs: Fs, es: seq<Event>, fs': Fs)
    requires Reaches(fs, es, fs')
    ensures |fs'.ring| == |fs.ring|
    decreases |es|
  {
    if es != [] {
      RingSizeFixed(Step(fs, es[0]), es[1..], fs');
    }
  }

  /** Ring and tables hold block numbers or INACTIVE. */
  ghost predicate Numbers(fs: Fs) {
    && (forall i :: 0 <= i < |fs.ring| ==> INACTIVE <= fs.ring[i])
    && (forall f, j :: Cell(fs, f, j) ==> INACTIVE <= fs.files[f].block[j])
  }

  lemma FreeOneNumbers(fs: Fs, f: nat, j: nat)
    requires Shape(fs) && Numbers(fs) && Cell(fs, f, j)
    ensures Numbers(FreeOne(fs, f, j))
  {
    var r := FreeOne(fs, f, j);
    forall g, k | Cell(r, g, k) ensures INACTIVE <= r.files[g].block[k] {
      assert Cell(fs, g, k);
    }
  }

  lemma {:induction false} FreeFirstNumbers(fs: Fs, f: nat, k: nat)
    requires Shape(fs) && Numbers(fs) && f < |fs.files| && k <= |fs.files[f].block|
    ensures Numbers(FreeFirst(fs, f, k))
  {
    if 0 < k {
      FreeFirstNumbers(fs, f, k - 1);
      NextTurn(fs, f, k);
      FreeOneNumbers(FreeFirst(fs, f, k - 1), f, k - 1);
    }
  }

  /** A change of everything but the block tables. */
  lemma SameNumbers(fs: Fs, fs': Fs)
    requires Numbers(fs) && fs'.ring == fs.ring && |fs'.files| == |fs.files|
    requires forall f :: 0 <= f < |fs.files| ==> fs'.files[f].block == fs.files[f].block
    ensures Numbers(fs')
  {
    forall g, k | Cell(fs', g, k) ensures INACTIVE <= fs'.files[g].block[k] {
      assert Cell(fs, g, k);
    }
  }

  lemma StepNumbers(fs: Fs, e: Event)
    requires Numbers(fs) && Enabled(fs, e)
    ensures Numbers(Step(fs, e))
  {
    match e
    case Write(f, j) =>
      var r := Step(fs, e);
      forall g, k | Cell(r, g, k) ensures INACTIVE <= r.files[g].block[k] {
        assert Cell(fs, g, k);
      }
    case Drop(f) =>
      var marked := fs.(files := fs.files[f := fs.files[f].(unlinked := true)]);
      SameNumbers(fs, marked);
      if fs.files[f].refs == 0 {
        var k := fs.files[f].nblock;
        FreeFirstNumbers(marked, f, k);
        SameNumbers(FreeFirst(marked, f, k), Unlink(marked, f));
      }
    case Release(f) =>
      ReleaseFreesNothing(fs, f);
      SameNumbers(fs, Step(fs, e));
    case _ => SameNumbers(fs, Step(fs, e));
  }

  /** In every reachable superblock ring and tables hold block numbers or INACTIVE, live or not. */
  lemma {:induction false} RunNumbers(fs: Fs, es: seq<Event>, fs': Fs)
    requires Numbers(fs) && Reaches(fs, es, fs')
    ensures Numbers(fs')
    decreases |es|
  {
    if es != [] {
      StepNumbers(fs, es[0]);
      RunNumbers(Step(fs, es[0]), es[1..], fs');
    }
  }

  /** myfs_used_blocks. */
  function UsedBlocks(fs: Fs): int {
    if fs.rp < fs.wp then fs.rp + |fs.ring| - fs.wp - 1 else fs.rp - fs.wp - 1
  }

  /** The reported number of used blocks is right exactly while at least one block is free. */
  lemma UsedBlocksRightUnlessFull(fs: Fs)
    requires Inv(fs)
    ensures UsedBlocks(fs) == Owned(fs.files) <==> 0 < Free(fs)
  {
  }

  /** The ring entry j places after the tail. */
  function After(fs: Fs, j: nat): nat
    requires Shape(fs) && j < |fs.ring|
  {
    if fs.wp + j < |fs.ring| then fs.wp + j else fs.wp + j - |fs.ring|
  }

  /** The j-th entry after the old tail is live once the tail has moved k > j places. */
  lemma LiveAfter(fs: Fs, r: Fs, k: nat, j: nat)
    requires Shape(fs) && Shape(r) && |r.ring| == |fs.ring| && r.rp == fs.rp && j < k && Free(fs) + k <= |fs.ring| - 1
    requires r.wp == After(fs, k)
    ensures LiveEntry(r, After(fs, j))
  {
  }

  /** The blocks freed by the loop follow each other in the ring. */
  lemma {:induction false} FreeFirstEntries(fs: Fs, f: nat, k: nat, j: nat)
    requires Shape(fs) && f < |fs.files| && k <= |fs.files[f].block| && j < k && Free(fs) + k <= |fs.ring| - 1
    ensures FreeFirst(fs, f, k).ring[After(fs, j)] == fs.files[f].block[j]
  {
    FreeFirstTail(fs, f, k - 1);
    NextTurn(fs, f, k);
    if j < k - 1 {
      FreeFirstEntries(fs, f, k - 1, j);
    }
  }

  lemma FreeFirstRing(fs: Fs, f: nat, k: nat, j: nat)
    requires Shape(fs) && f < |fs.files| && k <= |fs.files[f].block| && j < k && Free(fs) + k <= |fs.ring| - 1
    ensures LiveEntry(FreeFirst(fs, f, k), After(fs, j))
      && FreeFirst(fs, f, k).ring[After(fs, j)] == fs.files[f].block[j]
  {
    FreeFirstTail(fs, f, k);
    LiveAfter(fs, FreeFirst(fs, f, k), k, j);
    FreeFirstEntries(fs, f, k, j);
  }

  /**
   Unlink walks the first nblock cells.  It keeps every block in one place exactly when those
   cells are all active, that is when the file was grown without holes.
  */
  lemma UnlinkConservesExactlyWithoutHoles(fs: Fs, f: nat, w: seq<Place>)
    requires Placed(fs, w) && f < |fs.files| && fs.files[f].nblock <= |fs.files[f].block|
    requires Free(fs) + fs.files[f].nblock <= |fs.ring| - 1
    ensures (exists w' :: Placed(Unlink(fs, f), w')) <==>
      forall j :: 0 <= j < fs.files[f].nblock ==> fs.files[f].block[j] != INACTIVE
  {
    var file := fs.files[f];
    if j :| 0 <= j < file.nblock && file.block[j] == INACTIVE {
      FreeFirstRing(fs, f, file.nblock, j);
      var fs' := Unlink(fs, f);
      var i := After(fs, j);
      assert LiveEntry(fs', i) && fs'.ring[i] == INACTIVE;
      forall w' ensures !Placed(fs', w') {
        assert !EntryPlaced(fs', w', i);
      }
    } else {
      var w' := FreeFirstPlaced(fs, f, file.nblock, w);
      PlacedIgnoresNames(FreeFirst(fs, f, file.nblock), Unlink(fs, f), w');
    }
  }

  /** A file whose second block was written first: unlinking it puts -1 into the free ring. */
  lemma HoleExample()
    ensures
      var fs := OpenAt(Init(3, 1, 2), "a", 0);
      var grown := Touch(fs, 0, 1, true);
      var gone := Unlink(grown, 0);
      LiveEntry(gone, 2) && gone.ring[2] == INACTIVE
  {
    var grown := Touch(OpenAt(Init(3, 1, 2), "a", 0), 0, 1, true);
    assert grown.files[0].nblock == 1 && grown.files[0].block[0] == INACTIVE;
    assert FreeFirst(grown, 0, 1) == FreeOne(FreeFirst(grown, 0, 0), 0, 0);
  }

  /** A reachable superblock without a free block: the count of used blocks is -1 although one is owned. */
  lemma FullExample()
    ensures var fs := Touch(OpenAt(Init(2, 1, 1), "a", 0), 0, 0, true);
      && Reaches(Init(2, 1, 1), [Open("a", 0), Write(0, 0)], fs)
      && Free(fs) == 0 && Owned(fs.files) == 1 && UsedBlocks(fs) == -1
  {
    var start := Init(2, 1, 1);
    var named := OpenAt(start, "a", 0);
    var fs := Touch(named, 0, 0, true);
    var es := [Open("a", 0), Write(0, 0)];
    assert !Matches(start, 0, "a");
    assert Opens(start, "a", 0);
    assert es[1..] == [Write(0, 0)] && es[1..][1..] == [];
    assert Reaches(fs, [], fs);
    assert Reaches(named, es[1..], fs);
    assert fs.files[..0] == [];
    assert Owned(fs.files[..0]) == 0;
  }
}
