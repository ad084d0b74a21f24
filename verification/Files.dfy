/**
 What callers see of the file table of mylib/myfs.c and mylib/myfs.h over whole runs: which file a name
 opens, when a file goes away, and what the reference counts do.
*/
module Files {
  import opened BlockMap

  // ---------------------------------------------------------------- names

  /** File f is the first whose name begins with `name`. */
  ghost predicate Finds(fs: Fs, name: string, f: int) {
    Matches(fs, f, name) && forall g :: 0 <= g < f ==> !Matches(fs, g, name)
  }

  /** If there is such a file, opening the name leads to it and to no other. */
  lemma FindsOpens(fs: Fs, name: string, f: nat, g: nat)
    requires Finds(fs, name, f)
    ensures Opens(fs, name, g) <==> g == f
  {
    assert Matches(fs, f, name);
  }

  /** A name that no file begins with is given, as it is, to the first empty slot. */
  lemma OpenNames(fs: Fs, name: string, f: nat)
    requires Opens(fs, name, f)
    ensures var fs' := OpenAt(fs, name, f);
      && |fs'.files| == |fs.files| && Finds(fs', name, f)
      && fs'.files[f].isOpen && !fs'.files[f].unlinked && fs'.files[f].block == fs.files[f].block
      && (forall g :: 0 <= g < |fs.files| && g != f ==> fs'.files[g] == fs.files[g])
      && if exists g :: Matches(fs, g, name)
         then fs'.files[f].name == fs.files[f].name && fs'.files[f].nblock == fs.files[f].nblock
         else fs.files[f].name == "" && fs'.files[f].name == name && fs'.files[f].nblock == 0
  {
    var fs' := OpenAt(fs, name, f);
    assert Matches(fs, f, name) <==> exists g :: Matches(fs, g, name);
    forall g | 0 <= g < f ensures !Matches(fs', g, name) {
      assert !Matches(fs, g, name);
    }
  }

  /** Opening a name twice leads to the same file. */
  lemma OpenAgain(fs: Fs, name: string, f: nat, g: nat)
    requires Opens(fs, name, f)
    ensures Opens(OpenAt(fs, name, f), name, g) <==> g == f
  {
    OpenNames(fs, name, f);
    FindsOpens(OpenAt(fs, name, f), name, f, g);
  }

  /** An event that takes file f away from its name, or puts a longer name in front of it. */
  predicate Disturbs(e: Event, name: string, f: nat) {
    e == Drop(f) || (e.Open? && e.f < f && name <= e.name)
  }

  lemma StepNames(fs: Fs, e: Event)
    requires Enabled(fs, e)
    ensures |Step(fs, e).files| == |fs.files|
    ensures forall g :: 0 <= g < |fs.files| && e != Drop(g) && !(e.Open? && e.f == g) ==>
      Step(fs, e).files[g].name == fs.files[g].name
    ensures forall g :: 0 <= g < |fs.files| && e == Drop(g) ==>
      Step(fs, e).files[g].name == if fs.files[g].refs == 0 then "" else fs.files[g].name
  {
    if e.Release? {
      ReleaseFreesNothing(fs, e.f);
    }
  }

  lemma StepFinds(fs: Fs, e: Event, name: string, f: nat)
    requires Finds(fs, name, f) && Enabled(fs, e) && !Disturbs(e, name, f) && name != ""
    ensures Finds(Step(fs, e), name, f)
  {
    StepNames(fs, e);
    StepMatches(fs, e, name, f);
    if e.Open? {
      OpenNames(fs, e.name, e.f);
    }
    forall g | 0 <= g < f ensures !Matches(Step(fs, e), g, name) {
      assert !Matches(fs, g, name);
    }
  }

  /**
   However a run goes on, a name keeps leading to the file it was opened as, as long as the file is not
   unlinked and no longer name is opened into a slot before it.
  */
  lemma {:induction false} NameStays(fs: Fs, es: seq<Event>, fs': Fs, name: string, f: nat, g: nat)
    requires Finds(fs, name, f) && name != "" && Reaches(fs, es, fs')
    requires forall i :: 0 <= i < |es| ==> !Disturbs(es[i], name, f)
    ensures Finds(fs', name, f) && (Opens(fs', name, g) <==> g == f)
    decreases |es|
  {
    if es == [] {
      FindsOpens(fs', name, f, g);
    } else {
      StepFinds(fs, es[0], name, f);
      NameStays(Step(fs, es[0]), es[1..], fs', name, f, g);
    }
  }

  lemma StepMatches(fs: Fs, e: Event, name: string, f: nat)
    requires Matches(fs, f, name) && Enabled(fs, e) && e != Drop(f) && name != ""
    ensures Matches(Step(fs, e), f, name)
  {
    StepNames(fs, e);
    if e.Open? {
      OpenNames(fs, e.name, e.f);
    }
  }

  /** Without an unlink of the file, the name leads elsewhere exactly when a slot before it begins with the name. */
  lemma {:induction false} NameStaysExactlyWhen(fs: Fs, es: seq<Event>, fs': Fs, name: string, f: nat, g: nat)
    requires Matches(fs, f, name) && name != "" && Reaches(fs, es, fs') && Opens(fs', name, g)
    requires forall i :: 0 <= i < |es| ==> es[i] != Drop(f)
    ensures Matches(fs', f, name) && (g == f <==> forall h :: 0 <= h < f ==> !Matches(fs', h, name))
    decreases |es|
  {
    if es != [] {
      StepMatches(fs, es[0], name, f);
      NameStaysExactlyWhen(Step(fs, es[0]), es[1..], fs', name, f, g);
    }
  }

  lemma {:induction false} Reached(fs: Fs, es: seq<Event>, p: Fs, e: Event)
    requires Reaches(fs, es, p) && Enabled(p, e)
    ensures Reaches(fs, es + [e], Step(p, e))
    decreases |es|
  {
    if es == [] {
      assert [e][1..] == [];
    } else {
      assert (es + [e])[1..] == es[1..] + [e];
      Reached(Step(fs, es[0]), es[1..], p, e);
    }
  }

  /** Names that begin with different letters do not match. */
  lemma OtherLetter(fs: Fs, g: int, name: string)
    requires name != "" && 0 <= g < |fs.files| && (fs.files[g].name == "" || fs.files[g].name[0] != name[0])
    ensures !Matches(fs, g, name)
  {
  }

  /** A file of one block that has none. */
  function NewFile(name: string): File { File(name, [INACTIVE], 0, name != "", false, 0) }

  /** A superblock of two such files. */
  function TwoFiles(a: string, b: string): Fs { Init(2, 2, 1).(files := [NewFile(a), NewFile(b)]) }

  lemma FirstOpens()
    ensures Opens(Init(2, 2, 1), "x", 0) && OpenAt(Init(2, 2, 1), "x", 0) == TwoFiles("x", "")
  {
    var fs := Init(2, 2, 1);
    assert seq(1, _ => INACTIVE) == [INACTIVE];
    assert fs.files[0] == fs.files[1] == NewFile("");
    NoFiles(fs, "x");
    assert OpenAt(fs, "x", 0).files == [NewFile("x"), NewFile("")];
  }

  lemma SecondOpens()
    ensures Opens(TwoFiles("x", ""), "d", 1) && OpenAt(TwoFiles("x", ""), "d", 1) == TwoFiles("x", "d")
  {
    OtherLetter(TwoFiles("x", ""), 0, "d");
  }

  lemma FirstGoes()
    ensures Enabled(TwoFiles("x", "d"), Drop(0)) && Step(TwoFiles("x", "d"), Drop(0)) == TwoFiles("", "d")
  {
  }

  lemma LongerOpens()
    ensures Opens(TwoFiles("", "d"), "da", 0) && OpenAt(TwoFiles("", "d"), "da", 0) == TwoFiles("da", "d")
  {
  }

  /** It does happen: a file is unlinked, its slot goes to a longer name, and the short name now opens that file. */
  lemma LongerNameExample()
    ensures Reaches(Init(2, 2, 1), [Open("x", 0)] + [Open("d", 1)] + [Drop(0)] + [Open("da", 0)], TwoFiles("da", "d"))
    ensures Opens(TwoFiles("da", "d"), "d", 0)
  {
    var fs := Init(2, 2, 1);
    FirstOpens();
    assert Reaches(fs, [], fs) && [] + [Open("x", 0)] == [Open("x", 0)];
    Reached(fs, [], fs, Open("x", 0));
    SecondOpens();
    Reached(fs, [Open("x", 0)], TwoFiles("x", ""), Open("d", 1));
    FirstGoes();
    Reached(fs, [Open("x", 0)] + [Open("d", 1)], TwoFiles("x", "d"), Drop(0));
    LongerOpens();
    Reached(fs, [Open("x", 0)] + [Open("d", 1)] + [Drop(0)], TwoFiles("", "d"), Open("da", 0));
    assert Matches(TwoFiles("da", "d"), 0, "d");
  }

  lemma NoFiles(fs: Fs, name: string)
    requires name != "" && forall g :: 0 <= g < |fs.files| ==> fs.files[g].name == ""
    ensures forall g :: !Matches(fs, g, name)
    ensures |fs.files| > 0 ==> Opens(fs, name, 0)
  {
  }

  // ---------------------------------------------------------------- unlinking

  /** The slot is as if it had never been used. */
  predicate Empty(file: File) {
    && file.name == "" && file.nblock == 0 && !file.isOpen && !file.unlinked && file.refs == 0
    && forall j :: 0 <= j < |file.block| ==> file.block[j] == INACTIVE
  }

  /** What an unlink of the name makes of a file. */
  predicate UnlinkedAs(file: File, file': File, name: string) {
    if name <= file.name then if file.refs == 0 then Empty(file') else file' == file.(unlinked := true)
    else file' == file
  }

  /**
   Unlinking a file nobody holds empties its slot, so that the next new name can get it; one that is held
   is only marked.  No other file changes.
  */
  lemma UnlinkEmpties(fs: Fs, f: nat)
    requires Inv(fs) && f < |fs.files|
    ensures var fs' := TryUnlink(fs, f);
      && |fs'.files| == |fs.files| && (forall g :: 0 <= g < |fs.files| && g != f ==> fs'.files[g] == fs.files[g])
      && if fs.files[f].refs == 0 then Empty(fs'.files[f])
         else fs' == fs.(files := fs'.files) && fs'.files[f] == fs.files[f].(unlinked := true)
  {
    assert Compact(fs.files[f]);
  }

  /** An emptied slot is the one a new name gets, unless an earlier one is empty too. */
  lemma EmptyIsGiven(fs: Fs, f: nat, name: string)
    requires f < |fs.files| && Empty(fs.files[f]) && (forall g :: 0 <= g < f ==> fs.files[g].name != "")
    requires forall g :: !Matches(fs, g, name)
    ensures forall h :: Opens(fs, name, h) <==> h == f
  {
  }

  // ---------------------------------------------------------------- reference counts

  /** Holders of file f: counted holds less releases. */
  function Holders(es: seq<Event>, f: nat): int
    decreases |es|
  {
    if es == [] then 0
    else (if es[0] == Hold(f) then 1 else if es[0] == Release(f) then -1 else 0) + Holders(es[1..], f)
  }

  predicate LeavesOpen(es: seq<Event>, f: nat) {
    forall i :: 0 <= i < |es| ==> es[i] != Drop(f) && es[i] != Close(f)
  }

  lemma StepCounts(fs: Fs, e: Event, f: nat)
    requires Enabled(fs, e) && f < |fs.files| && fs.files[f].isOpen && !fs.files[f].unlinked
    requires e != Drop(f) && e != Close(f)
    ensures var file, file' := fs.files[f], Step(fs, e).files[f];
      && file'.isOpen && !file'.unlinked
      && (e == Hold(f) ==> file'.refs == (file.refs + 1) % COUNTS)
      && (e == Release(f) ==> file'.refs == (file.refs + COUNTS - 1) % COUNTS)
      && (e != Hold(f) && e != Release(f) ==> file'.refs == file.refs)
  {
    if e.Release? {
      ReleaseFreesNothing(fs, e.f);
    }
    if e.Open? {
      OpenNames(fs, e.name, e.f);
    }
  }

  lemma Wraps(a: int, b: int)
    ensures (a % COUNTS + b) % COUNTS == (a + b) % COUNTS
  {
  }

  /** While a file is open and not unlinked, its count is the number of its holders, modulo 65536. */
  lemma {:induction false} CountIsHolders(fs: Fs, es: seq<Event>, fs': Fs, f: nat, before: int)
    requires Reaches(fs, es, fs') && LeavesOpen(es, f) && f < |fs.files|
    requires fs.files[f].isOpen && !fs.files[f].unlinked && fs.files[f].refs == before % COUNTS
    ensures f < |fs'.files| && fs'.files[f].isOpen && !fs'.files[f].unlinked
    ensures fs'.files[f].refs == (before + Holders(es, f)) % COUNTS
    decreases |es|
  {
    if es != [] {
      var e := es[0];
      StepCounts(fs, e, f);
      StepNames(fs, e);
      var d := if e == Hold(f) then 1 else if e == Release(f) then -1 else 0;
      Wraps(before, 1);
      Wraps(before, COUNTS - 1);
      Wraps(before - 1, COUNTS);
      CountIsHolders(Step(fs, e), es[1..], fs', f, before + d);
    }
  }

  /**
   read_impl and write_impl take a hold, without looking whether they got it, and release it at the end.
   The count is back where it was exactly when the file was open and not unlinked at the start; otherwise
   it ends one below, which is 65535 if it was 0.
  */
  lemma AccessBalancedExactlyWhen(fs: Fs, f: nat)
    requires Shape(fs) && f < |fs.files| && fs.files[f].nblock <= |fs.files[f].block| && fs.files[f].refs < COUNTS
    ensures CountDown(CountUp(fs, f), f) == fs <==> fs.files[f].isOpen && !fs.files[f].unlinked
    ensures !(fs.files[f].isOpen && !fs.files[f].unlinked) ==>
      CountDown(CountUp(fs, f), f).files[f].refs == if fs.files[f].refs == 0 then COUNTS - 1 else fs.files[f].refs - 1
  {
    ReleaseFreesNothing(fs, f);
    ReleaseFreesNothing(CountUp(fs, f), f);
    var file := fs.files[f];
    assert ((file.refs + 1) % COUNTS + COUNTS - 1) % COUNTS == file.refs;
    assert fs.files == fs.files[f := file];
  }

  /** Every unlink of file f in the run finds it held. */
  ghost predicate OnlyPostponed(fs: Fs, es: seq<Event>, f: nat)
    decreases |es|
  {
    es == [] ||
    (Enabled(fs, es[0]) && f < |fs.files| && (es[0] == Drop(f) ==> fs.files[f].refs != 0)
     && OnlyPostponed(Step(fs, es[0]), es[1..], f))
  }

  lemma StepHeld(fs: Fs, e: Event, f: nat)
    requires Inv(fs) && Enabled(fs, e) && f < |fs.files| && fs.files[f].name != ""
    requires e == Drop(f) ==> fs.files[f].refs != 0
    ensures var file, file' := fs.files[f], Step(fs, e).files[f];
      && file'.name == file.name && file.nblock <= file'.nblock && |file'.block| == |file.block|
      && forall j :: 0 <= j < |file.block| && file.block[j] != INACTIVE ==> file'.block[j] == file.block[j]
  {
    if e.Release? {
      ReleaseFreesNothing(fs, e.f);
    }
    if e.Open? {
      OpenNames(fs, e.name, e.f);
    }
    if e.Drop? {
      UnlinkEmpties(fs, e.f);
    }
  }

  /**
   An unlink that was postponed is never carried out: whatever is released, closed or opened afterwards, a
   file keeps its name and all its blocks until an unlink finds its count at 0.
  */
  lemma {:induction false} PostponedForEver(fs: Fs, es: seq<Event>, fs': Fs, f: nat)
    requires Inv(fs) && Reaches(fs, es, fs') && f < |fs.files| && fs.files[f].name != "" && OnlyPostponed(fs, es, f)
    ensures f < |fs'.files| && fs'.files[f].name == fs.files[f].name && |fs'.files[f].block| == |fs.files[f].block|
    ensures fs.files[f].nblock <= fs'.files[f].nblock
    ensures forall j :: 0 <= j < |fs.files[f].block| && fs.files[f].block[j] != INACTIVE ==>
      fs'.files[f].block[j] == fs.files[f].block[j]
    decreases |es|
  {
    if es != [] {
      StepHeld(fs, es[0], f);
      StepNames(fs, es[0]);
      StepKeeps(fs, es[0]);
      PostponedForEver(Step(fs, es[0]), es[1..], fs', f);
    }
  }

  /** A superblock with one file, which has the only block. */
  function OneFile(unlinked: bool, refs: nat): Fs {
    Init(2, 1, 1).(rp := 1, files := [File("d", [0], 1, true, unlinked, refs)])
  }

  lemma FileWritten()
    ensures Reaches(Init(2, 1, 1), [Open("d", 0)] + [Write(0, 0)], OneFile(false, 0))
  {
    var fs := Init(2, 1, 1);
    NoFiles(fs, "d");
    assert Reaches(fs, [], fs) && [] + [Open("d", 0)] == [Open("d", 0)];
    Reached(fs, [], fs, Open("d", 0));
    var fs1 := OpenAt(fs, "d", 0);
    assert fs.files[0] == File("", [INACTIVE], 0, false, false, 0);
    assert fs1.files[0] == File("d", [INACTIVE], 0, true, false, 0);
    var fs2 := Touch(fs1, 0, 0, true);
    assert fs1.ring[0] == 0 && fs2.files[0].block == [0];
    assert fs2.files == OneFile(false, 0).files;
    Reached(fs, [Open("d", 0)], fs1, Write(0, 0));
  }

  /**
   A file unlinked during a read: the read ends, nobody holds the file any more, and it is still there with
   its block, so that no block is free.
  */
  lemma LeakExample()
    ensures Reaches(Init(2, 1, 1), [Open("d", 0)] + [Write(0, 0)] + [Hold(0)] + [Drop(0)] + [Release(0)],
      OneFile(true, 0))
    ensures Free(OneFile(true, 0)) == 0
  {
    var fs, es := Init(2, 1, 1), [Open("d", 0)] + [Write(0, 0)];
    FileWritten();
    Reached(fs, es, OneFile(false, 0), Hold(0));
    assert CountUp(OneFile(false, 0), 0) == OneFile(false, 1);
    Reached(fs, es + [Hold(0)], OneFile(false, 1), Drop(0));
    assert TryUnlink(OneFile(false, 1), 0) == OneFile(true, 1);
    Reached(fs, es + [Hold(0)] + [Drop(0)], OneFile(true, 1), Release(0));
    assert CountDown(OneFile(true, 1), 0) == OneFile(true, 0);
  }
}
