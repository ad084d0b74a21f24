/**
 mylib/myfs.c: the superblock operations with their loops, proved to compute the functions
 of BlockMap.
*/
module MyFs {
  import opened Prelude
  import opened Addressing
  import opened BlockMap
  import opened Files

  class Superblock {
    const freeBlocks: array<int>
    var rp: nat
    var wp: nat
    var files: seq<File>

    ghost function View(): Fs
      reads this, freeBlocks
    {
      Fs(freeBlocks[..], rp, wp, files)
    }

    /** myfs_superblock_init on a zeroed superblock. */
    constructor (numBlocks: nat, maxFiles: nat, maxBlocksPerFile: nat)
      requires 2 <= numBlocks
      ensures View() == Init(numBlocks, maxFiles, maxBlocksPerFile) && Inv(View())
      ensures fresh(freeBlocks)
    {
      var ring := new int[numBlocks](_ => 0);
      var i := 0;
      while i < numBlocks - 1
        invariant 0 <= i <= numBlocks - 1
        invariant forall k :: 0 <= k < numBlocks ==> ring[k] == if k < i then k else 0
      {
        ring[i] := i;
        i := i + 1;
      }
      freeBlocks, rp, wp := ring, 0, numBlocks - 1;
      files := seq(maxFiles, _ => File("", seq(maxBlocksPerFile, _ => INACTIVE), 0, false, false, 0));
      new;
      assert freeBlocks[..] == Init(numBlocks, maxFiles, maxBlocksPerFile).ring;
      InitInv(numBlocks, maxFiles, maxBlocksPerFile);
    }

    /** myfs_used_blocks. */
    method Used() returns (r: int)
      requires Inv(View())
      ensures 0 < Free(View()) ==> r == Owned(files)
      ensures Free(View()) == 0 ==> r == -1
    {
      if rp < wp {
        r := rp + freeBlocks.Length - wp - 1;
      } else {
        r := rp - wp - 1;
      }
    }

    /** myfs_open: None when every slot is taken, a case the code does not detect. */
    method Open(name: string) returns (r: Option<nat>)
      requires Inv(View())
      modifies this`files
      ensures Inv(View())
      ensures match r
        case Some(f) => Opens(old(View()), name, f) && View() == OpenAt(old(View()), name, f)
        case None =>
          View() == old(View()) && forall f :: 0 <= f < |files| ==> !Matches(View(), f, name) && files[f].name != ""
      // the file found begins with the name; a new one has exactly this name, is empty and replaces an unused slot
      ensures r.Some? ==> r.value < |files| == |old(files)| && Finds(View(), name, r.value) && files[r.value].isOpen
      ensures r.Some? && (forall g :: !Matches(old(View()), g, name)) ==>
        files[r.value].name == name && files[r.value].nblock == 0 && old(files)[r.value].name == ""
      ensures r.Some? ==> forall g :: 0 <= g < |files| && g != r.value ==> files[g] == old(files)[g]
    {
      var empty: Option<nat> := None;
      var i := 0;
      while i < |files|
        invariant 0 <= i <= |files| && View() == old(View())
        invariant forall g :: 0 <= g < i ==> !Matches(View(), g, name)
        invariant match empty
          case Some(f) => f < i && files[f].name == "" && forall g :: 0 <= g < f ==> files[g].name != ""
          case None => forall g :: 0 <= g < i ==> files[g].name != ""
      {
        if name <= files[i].name {
          assert Matches(View(), i, name);
          OpenKeeps(View(), name, i);
          OpenNames(View(), name, i);
          files := files[i := files[i].(isOpen := true, unlinked := false)];
          return Some(i);
        }
        if empty.None? && files[i].name == "" {
          empty := Some(i);
        }
        i := i + 1;
      }
      r := empty;
      if empty.Some? {
        var f := empty.value;
        assert !Matches(View(), f, name);
        OpenKeeps(View(), name, f);
        OpenNames(View(), name, f);
        files := files[f := files[f].(name := name, nblock := 0, isOpen := true, unlinked := false)];
      }
    }

    /** The locked section of myfs_get_lba. */
    method EnsureBlock(f: nat, j: nat)
      requires Shape(View()) && f < |files| && j < |files[f].block|
      modifies this
      ensures View() == Touch(old(View()), f, j, true)
    {
      if files[f].block[j] == INACTIVE {
        var slot, file := rp, files[f];
        rp := Next(rp, freeBlocks.Length);
        files := files[f := file.(block := file.block[j := freeBlocks[slot]], nblock := file.nblock + 1)];
      }
    }

    /**
     myfs_get_lba: None stands for the failing assertion on an unmapped block.  Neither the order
     in which a file grows nor an empty ring is checked: a write takes whatever the ring entry at
     rp holds.  Entries are block numbers or INACTIVE.
    */
    method GetLba(f: nat, offset: nat, write: bool) returns (lba: Option<nat>)
      requires Shape(View()) && f < |files| && offset / BLOCK_SIZE < |files[f].block|
      requires INACTIVE <= files[f].block[offset / BLOCK_SIZE] && INACTIVE <= freeBlocks[rp]
      modifies this
      ensures View() == Touch(old(View()), f, offset / BLOCK_SIZE, write)
      ensures var b := files[f].block[offset / BLOCK_SIZE];
        if b == INACTIVE then lba == None else 0 <= b && lba == Some(BlockLba(b, offset))
    {
      var j := offset / BLOCK_SIZE;
      if write {
        EnsureBlock(f, j);
      }
      var b := files[f].block[j];
      if b == INACTIVE {
        lba := None;
      } else {
        lba := Some((b * BLOCK_SIZE + offset % BLOCK_SIZE) / 512);
      }
    }

    /** __myfs_unlink. */
    method Unlink(f: nat)
      requires Shape(View()) && f < |files| && files[f].nblock <= |files[f].block|
      modifies this, freeBlocks
      ensures View() == BlockMap.Unlink(old(View()), f)
    {
      ghost var start := View();
      var n := files[f].nblock;
      var j := 0;
      while j < n
        invariant 0 <= j <= n && n == start.files[f].nblock
        invariant View() == FreeFirst(start, f, j)
      {
        var slot := wp;
        wp := Next(wp, freeBlocks.Length);
        freeBlocks[slot] := files[f].block[j];
        files := files[f := files[f].(block := files[f].block[j := INACTIVE])];
        j := j + 1;
        assert freeBlocks[..] == FreeFirst(start, f, j).ring;
      }
      files := files[f := files[f].(name := "", nblock := 0, isOpen := false, unlinked := false, refs := 0)];
    }

    /** __myfs_try_unlink. */
    method TryUnlink(f: nat)
      requires Inv(View()) && f < |files|
      modifies this, freeBlocks
      ensures Inv(View()) && View() == BlockMap.TryUnlink(old(View()), f)
      ensures old(files[f].refs) == 0 ==>
        && Free(View()) == old(Free(View())) + old(files[f].nblock)
        && Owned(files) == old(Owned(files)) - old(files[f].nblock)
      ensures |files| == |old(files)| && forall g :: 0 <= g < |files| && g != f ==> files[g] == old(files)[g]
      ensures if old(files[f].refs) == 0 then Empty(files[f])
        else freeBlocks[..] == old(freeBlocks[..]) && files[f] == old(files)[f].(unlinked := true)
    {
      TryUnlinkKeeps(View(), f);
      UnlinkEmpties(View(), f);
      ghost var fs := View();
      files := files[f := files[f].(unlinked := true)];
      if files[f].refs == 0 {
        MarkKeeps(fs, f);
        UnlinkKeeps(View(), f);
        UnlinkFiles(View(), f);
        Unlink(f);
      }
    }

    /** myfs_unlink: every file whose name begins with `name` goes, or is marked if it is held. */
    method UnlinkName(name: string)
      requires Inv(View())
      modifies this, freeBlocks
      ensures Inv(View()) && |files| == |old(files)|
      ensures forall f :: 0 <= f < |files| ==> UnlinkedAs(old(files)[f], files[f], name)
    {
      for i := 0 to |files|
        invariant Inv(View()) && |files| == |old(files)|
        invariant forall f :: 0 <= f < i ==> UnlinkedAs(old(files)[f], files[f], name)
        invariant forall f :: i <= f < |files| ==> files[f] == old(files)[f]
      {
        UnlinkOne(i, name);
      }
    }

    /** One turn of that loop. */
    method UnlinkOne(i: nat, name: string)
      requires Inv(View()) && i < |files|
      modifies this, freeBlocks
      ensures Inv(View()) && |files| == |old(files)| && UnlinkedAs(old(files)[i], files[i], name)
      ensures forall f :: 0 <= f < |files| && f != i ==> files[f] == old(files)[f]
    {
      if name <= files[i].name {
        TryUnlink(i);
      }
    }

    /** myfs_increment_ref. */
    method IncrementRef(f: nat) returns (counted: bool)
      requires f < |files|
      modifies this`files
      ensures View() == CountUp(old(View()), f)
      ensures counted <==> old(files)[f].isOpen && !old(files)[f].unlinked
      ensures files == if counted then old(files)[f := files[f]] else old(files)
      ensures counted && old(files)[f].refs + 1 < COUNTS ==> files[f].refs == old(files)[f].refs + 1
    {
      counted := files[f].isOpen && !files[f].unlinked;
      if counted {
        files := files[f := files[f].(refs := (files[f].refs + 1) % COUNTS)];
      }
    }

    /** myfs_decrement_ref: it never frees a block, even when it releases the last hold on an unlinked file. */
    method DecrementRef(f: nat)
      requires Inv(View()) && f < |files|
      modifies this, freeBlocks
      ensures Inv(View()) && View() == CountDown(old(View()), f)
      ensures freeBlocks[..] == old(freeBlocks[..]) && rp == old(rp) && wp == old(wp)
      ensures files == old(files)[f := old(files)[f].(refs := files[f].refs)]
      ensures 0 < old(files)[f].refs < COUNTS ==> files[f].refs == old(files)[f].refs - 1
    {
      LowerKeeps(View(), f);
      var found := files[f].refs;
      files := files[f := files[f].(refs := Lower(found))];
      if found == 0 && files[f].unlinked {
        MarkedAgain(View(), f);
        UnlinkFd(f);
      }
    }

    /** myfs_unlink_fd. */
    method UnlinkFd(f: nat)
      requires Inv(View()) && f < |files|
      modifies this, freeBlocks
      ensures Inv(View()) && View() == BlockMap.TryUnlink(old(View()), f)
    {
      TryUnlink(f);
    }

    /** myfs_close. */
    method Close(f: nat)
      requires f < |files|
      modifies this`files
      ensures View() == Closed(old(View()), f)
      ensures files == old(files)[f := files[f]] && files[f].isOpen != old(files)[f].isOpen
    {
      files := files[f := files[f].(isOpen := !files[f].isOpen)];
    }
  }

  lemma LowerKeeps(fs: Fs, f: nat)
    requires Inv(fs) && f < |fs.files|
    ensures fs.files[f].nblock <= |fs.files[f].block|
    ensures var lower := fs.(files := fs.files[f := fs.files[f].(refs := Lower(fs.files[f].refs))]);
      Inv(lower) && CountDown(fs, f) == lower
  {
    assert Compact(fs.files[f]);
    StepKeeps(fs, Release(f));
    ReleaseFreesNothing(fs, f);
  }

  lemma MarkedAgain(fs: Fs, f: nat)
    requires Inv(fs) && f < |fs.files| && fs.files[f].unlinked && fs.files[f].refs != 0
    ensures fs.files[f].nblock <= |fs.files[f].block| && BlockMap.TryUnlink(fs, f) == fs
  {
    assert Compact(fs.files[f]);
    assert fs.files[f := fs.files[f].(unlinked := true)] == fs.files;
  }

  lemma MarkKeeps(fs: Fs, f: nat)
    requires Inv(fs) && f < |fs.files|
    ensures var marked := fs.(files := fs.files[f := fs.files[f].(unlinked := true)]);
      Inv(marked) && Owned(marked.files) == Owned(fs.files)
  {
    var marked := fs.(files := fs.files[f := fs.files[f].(unlinked := true)]);
    var w :| Placed(fs, w);
    PlacedIgnoresNames(fs, marked, w);
    OwnedUpdate(fs.files, f, marked.files[f]);
  }

  /** With files grown in order the assertion on an unmapped block fails exactly for reads at or past the size. */
  lemma UnmappedExactlyPastSize(fs: Fs, f: nat, offset: nat, write: bool)
    requires Shape(fs) && f < |fs.files| && offset / BLOCK_SIZE < |fs.files[f].block|
    requires Mapped(fs.files[f]) && FreeEntriesGood(fs)
    requires write && fs.files[f].nblock <= offset / BLOCK_SIZE ==> 0 < Free(fs)
    ensures Touch(fs, f, offset / BLOCK_SIZE, write).files[f].block[offset / BLOCK_SIZE] == INACTIVE
      <==> !write && fs.files[f].nblock * BLOCK_SIZE <= offset
  {
    assert 0 < Free(fs) ==> LiveEntry(fs, fs.rp);
  }
}
