/**
 The theorems of Stack about completed requests are not empty: unless its submission ring is full,
 a queue can be served until every request in it is reported done.
*/
module Progress {
  import opened Prelude
  import opened Addressing
  import opened QueuePair
  import opened QueuePairRuns
  import opened Coherence
  import opened Stack
  import BM = BlockMap

  /** A fetch the queue allows is one the drive can make with the right data. */
  lemma DiskFetch(w: World, ch: Chan, any: seq<Byte>) returns (payload: seq<Byte>)
    requires Lanes(w.core) && IsChan(w.core, ch) && QueueOk(w, ch) && Enabled(w.qps[ch], Fetch(any))
    ensures CanDrive(w, ch, Fetch(payload))
  {
    var q := w.qps[ch];
    FetchedCommand(q);
    var r := q.sent[|q.io|];
    payload := if r.write then any
      else seq(r.nblk * SECTOR, k requires 0 <= k => w.core.disk(ch.d, r.slba * SECTOR + k));
  }

  /** The queue of a channel has commands to serve and is not full. */
  ghost predicate Serviceable(w: World, ch: Chan) {
    && IsChan(w.core, ch) && ch in w.qps
    && |w.qps[ch].reaped| < |w.qps[ch].sent| && |w.qps[ch].sent| - |w.qps[ch].io| < w.qps[ch].n
  }

  /** The action that brings a channel one event further. */
  lemma NextAction(w: World, ch: Chan) returns (a: Action, e: Event)
    requires Lanes(w.core) && Queues(w) && Serviceable(w, ch)
    ensures Can(w, a) && Enabled(w.qps[ch], e) && !e.Submit? && Next(w, a).qps == w.qps[ch := Step(w.qps[ch], e)]
    ensures Next(w, a).core.nd == w.core.nd && Next(w, a).core.nc == w.core.nc && Services(a, ch)
  {
    assert QueueOk(w, ch);
    e := SomeProgress(w.qps[ch]);
    match e
    case Fetch(any) =>
      var payload := DiskFetch(w, ch, any);
      e := Fetch(payload);
      a := Drive(ch, e);
    case Post(_) => a := Drive(ch, e);
    case Reap => a := Poll(ch);
  }

  lemma RunsSnoc(w: World, acts: seq<Action>, p: World, a: Action)
    requires Runs(w, acts, p) && Can(p, a)
    ensures Runs(w, acts + [a], Next(p, a))
  {
    assert (acts + [a])[..|acts|] == acts;
    assert StepsTo(p, a, Next(p, a));
  }

  /** Drive and poller of channel ch lead from w to w'. */
  ghost predicate Served(w: World, acts: seq<Action>, w': World, ch: Chan) {
    Runs(w, acts, w') && forall i :: 0 <= i < |acts| ==> Services(acts[i], ch)
  }

  lemma ServedSnoc(w: World, acts: seq<Action>, p: World, a: Action, ch: Chan)
    requires Served(w, acts, p, ch) && Can(p, a) && Services(a, ch)
    ensures Served(w, acts + [a], Next(p, a), ch)
  {
    RunsSnoc(w, acts, p, a);
  }

  /** One action more. */
  lemma ServeOne(w: World, ch: Chan) returns (a: Action)
    requires Stack.Inv(w) && Serviceable(w, ch)
    ensures Can(w, a) && Services(a, ch) && Stack.Inv(Next(w, a)) && IsChan(Next(w, a).core, ch)
    ensures ch in Next(w, a).qps
    ensures var q, q' := w.qps[ch], Next(w, a).qps[ch];
      && Reachable(q') && q'.n == q.n && q'.sent == q.sent && |q.io| <= |q'.io|
      && |q'.reaped| <= |q'.sent| && 0 <= ToDo(q') < ToDo(q)
  {
    var e;
    a, e := NextAction(w, ch);
    ServiceStep(w, a, ch);
    NextKeeps(w, a);
    QueueFacts(Next(w, a), ch);
  }

  /** Any channel whose ring is not full can be served until all its requests are reaped. */
  lemma ChannelDrains(w: World, ch: Chan) returns (acts: seq<Action>, w': World)
    requires Stack.Inv(w) && IsChan(w.core, ch) && ch in w.qps && |w.qps[ch].sent| - |w.qps[ch].io| < w.qps[ch].n
    ensures Served(w, acts, w', ch) && Stack.Inv(w') && ch in w'.qps && Reachable(w'.qps[ch])
    ensures w'.qps[ch].sent == w.qps[ch].sent && |w'.qps[ch].reaped| == |w.qps[ch].sent|
  {
    acts, w' := [], w;
    QueueFacts(w, ch);
    while |w'.qps[ch].reaped| < |w.qps[ch].sent|
      invariant Served(w, acts, w', ch) && Stack.Inv(w') && IsChan(w'.core, ch) && ch in w'.qps
      invariant Reachable(w'.qps[ch])
      invariant w'.qps[ch].sent == w.qps[ch].sent && |w'.qps[ch].sent| - |w'.qps[ch].io| < w'.qps[ch].n
      invariant |w'.qps[ch].reaped| <= |w.qps[ch].sent| && 0 <= ToDo(w'.qps[ch])
      decreases ToDo(w'.qps[ch])
    {
      var a := ServeOne(w', ch);
      ServedSnoc(w, acts, w', a, ch);
      acts, w' := acts + [a], Next(w', a);
    }
  }

  lemma QueueFacts(w: World, ch: Chan)
    requires Queues(w) && IsChan(w.core, ch)
    ensures ch in w.qps && Reachable(w.qps[ch]) && |w.qps[ch].reaped| <= |w.qps[ch].sent| && 0 <= ToDo(w.qps[ch])
  {
    assert QueueOk(w, ch);
    ReachableInv(w.qps[ch]);
    ToDoNotNegative(w.qps[ch]);
  }

  /** Action a is one of the drive or the poller of channel ch. */
  predicate Services(a: Action, ch: Chan) {
    (a.Drive? && a.ch == ch && !a.e.Submit?) || (a.Poll? && a.ch == ch)
  }

  lemma ServiceStep(w: World, a: Action, ch: Chan)
    requires Can(w, a) && Services(a, ch)
    ensures ch in w.qps && ch in Next(w, a).qps
    ensures Next(w, a).core.nd == w.core.nd && Next(w, a).core.nc == w.core.nc
    ensures var q, q' := w.qps[ch], Next(w, a).qps[ch];
      q'.n == q.n && q'.sent == q.sent && |q.io| <= |q'.io| && ToDo(q') == ToDo(q) - 1
  {
    ProgressCounts(w.qps[ch], if a.Drive? then a.e else Reap);
  }

  lemma {:induction false} ServiceCounts(w: World, acts: seq<Action>, w': World, ch: Chan)
    requires IsChan(w.core, ch) && ch in w.qps && Served(w, acts, w', ch)
    ensures IsChan(w'.core, ch) && ch in w'.qps
    ensures var q, q' := w.qps[ch], w'.qps[ch];
      q'.n == q.n && q'.sent == q.sent && |q.io| <= |q'.io| && |acts| + ToDo(q') == ToDo(q)
    decreases |acts|
  {
    if acts != [] {
      var k := |acts| - 1;
      var p :| Runs(w, acts[..k], p) && StepsTo(p, acts[k], w');
      ServiceCounts(w, acts[..k], p, ch);
      ServiceStep(p, acts[k], ch);
    }
  }

  /** Nothing but the channel ch, its drive's contents and its requests differ. */
  predicate Elsewhere(w: World, w': World, ch: Chan) {
    && w'.core.nd == w.core.nd && w'.core.nc == w.core.nc && w'.core.fs == w.core.fs
    && forall dh :: dh in w.qps && dh != ch ==> dh in w'.qps && w'.qps[dh] == w.qps[dh]
  }

  lemma ServiceElsewhere(w: World, a: Action, w': World, ch: Chan)
    requires StepsTo(w, a, w') && Services(a, ch)
    ensures Elsewhere(w, w', ch)
  {
  }

  lemma {:induction false} ServicesElsewhere(w: World, acts: seq<Action>, w': World, ch: Chan)
    requires Served(w, acts, w', ch)
    ensures Elsewhere(w, w', ch)
    decreases |acts|
  {
    if acts != [] {
      var k := |acts| - 1;
      var p :| Runs(w, acts[..k], p) && StepsTo(p, acts[k], w');
      ServicesElsewhere(w, acts[..k], p, ch);
      ServiceElsewhere(p, acts[k], w', ch);
    }
  }

  lemma QuietChannel(w: World, ch: Chan)
    requires ch in w.qps && Quiet(w.qps[ch])
    ensures forall a :: Services(a, ch) ==> !Can(w, a)
  {
    assert !Enabled(w.qps[ch], Reap);
  }

  lemma BusyChannel(w: World, ch: Chan)
    requires Stack.Inv(w) && Serviceable(w, ch)
    ensures exists a :: Services(a, ch) && Can(w, a)
  {
    var a, e := NextAction(w, ch);
  }

  /**
   The same over the stack: no service of a channel by its drive and poller goes on for ever, and
   where they cannot go on all its requests are reaped.
  */
  lemma EveryServiceDrains(w: World, acts: seq<Action>, w': World, ch: Chan)
    requires Stack.Inv(w) && IsChan(w.core, ch) && ch in w.qps && Served(w, acts, w', ch)
    requires |w.qps[ch].sent| - |w.qps[ch].io| < w.qps[ch].n
    ensures |acts| <= ToDo(w.qps[ch]) && ch in w'.qps && w'.qps[ch].sent == w.qps[ch].sent
    ensures (forall a :: Services(a, ch) ==> !Can(w', a)) <==> |w'.qps[ch].reaped| == |w'.qps[ch].sent|
  {
    ServiceCounts(w, acts, w', ch);
    Stack.RunKeeps(w, acts, w');
    QueueFacts(w', ch);
    if |w'.qps[ch].reaped| == |w'.qps[ch].sent| {
      ReachableInv(w'.qps[ch]);
      DrainedIsQuiet(w'.qps[ch]);
      QuietChannel(w', ch);
    } else {
      BusyChannel(w', ch);
    }
  }

  /**
   A read just issued can be brought to completion, unless it filled the ring of its queue with unfetched commands.
  */
  lemma ReadCanComplete(w: World, c: nat, f: nat, off: nat, nblk: nat, len: nat) returns (after: seq<Action>, w': World)
    requires Stack.Inv(w) && CanRead(w, c, f, off, nblk, len)
    requires var q := w.qps[Target(w, c, f, off)]; |q.sent| + 1 - |q.io| < q.n
    ensures Runs(ReadStep(w, c, f, off, nblk, len), after, w')
    ensures ReportedDone(w', Target(w, c, f, off), |w.core.lanes[Target(w, c, f, off)].sent|)
  {
    var ch, w1 := Target(w, c, f, off), ReadStep(w, c, f, off, nblk, len);
    ReadStepKeeps(w, c, f, off, nblk, len);
    assert QueueOk(w, ch);
    after, w' := ChannelDrains(w1, ch);
    DrainedIsDone(w'.qps[ch], |w.core.lanes[ch].sent|);
  }

  /** With one core, a chunk of a file can be read if and only if new_sqe finds its slot out of use. */
  lemma OneCoreCanRead(w: World, f: nat, off: nat, nblk: nat, len: nat)
    requires Stack.Inv(w) && w.core.nc == 1 && Has(w.core.fs, f, off) && Aligned(off, nblk) && len <= nblk * SECTOR
    ensures var ch := Target(w, 0, f, off);
      && ch in w.qps && w.qps[ch].sqTail < |w.qps[ch].done|
      && (CanRead(w, 0, f, off, nblk, len) <==> w.qps[ch].done[w.qps[ch].sqTail] != 0)
  {
    var ch := Target(w, 0, f, off);
    assert IsChan(w.core, ch);
    assert QueueOk(w, ch);
    OneCoreNeverRaces(w.core, ch, Command(w, w.qps[ch].sqTail, f, off, false, nblk, len, []));
  }

  /** The block of a chunk to be written is there once it has been touched. */
  lemma TouchedHas(fs: BM.Fs, f: nat, off: nat)
    requires BM.Inv(fs) && BM.Enabled(fs, BM.Write(f, off / BLOCK_SIZE))
    ensures Has(BM.Touch(fs, f, off / BLOCK_SIZE, true), f, off)
  {
    var j := off / BLOCK_SIZE;
    BM.TouchKeeps(fs, f, j);
    BM.InvMapped(BM.Touch(fs, f, j, true), f);
    BM.InvMapped(fs, f);
  }

  /** The channel of a chunk write, whose block may have to be allocated. */
  ghost function WriteTarget(w: World, f: nat, off: nat): Chan
    requires Stack.Inv(w) && BM.Enabled(w.core.fs, BM.Write(f, off / BLOCK_SIZE))
  {
    TouchedHas(w.core.fs, f, off);
    Target(Touched(w, f, off), 0, f, off)
  }

  /** So can a chunk be written, to a block the file has or the next one while a block is free. */
  lemma OneCoreCanWrite(w: World, f: nat, off: nat, data: seq<Byte>)
    requires Stack.Inv(w) && w.core.nc == 1 && BM.Enabled(w.core.fs, BM.Write(f, off / BLOCK_SIZE))
    requires |data| % SECTOR == 0 && Aligned(off, |data| / SECTOR)
    ensures var ch := WriteTarget(w, f, off);
      && ch in w.qps && w.qps[ch].sqTail < |w.qps[ch].done|
      && (Stack.CanWrite(w, 0, f, off, data) <==> w.qps[ch].done[w.qps[ch].sqTail] != 0)
  {
    TouchedHas(w.core.fs, f, off);
    var t := Touched(w, f, off);
    var ch := Target(t, 0, f, off);
    assert IsChan(w.core, ch);
    assert QueueOk(w, ch);
    assert Lanes(t.core);
    OneCoreNeverRaces(t.core, ch, Command(t, w.qps[ch].sqTail, f, off, true, |data| / SECTOR, |data|, data));
  }
}
