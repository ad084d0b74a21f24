/**
 A run of the whole stack, for any number of drives and any sizes: open a file, write n units of it, back
 them up, write something else over them, restore them, and read them back.  Every request is served
 before the next is made, so queue slots and tickets are used over and over.  The run meets the
 hypotheses of the theorems about whole reads, whole writes and restored files.
*/
module Example {
  import opened Prelude
  import opened Sequences
  import opened Addressing
  import BM = BlockMap
  import opened QueuePair
  import opened QueuePairRuns
  import opened Coherence
  import opened Stack
  import opened Progress
  import Hook
  import opened ReadWrite
  import opened BackupOnStack

  /** At least one drive, one core, two commands to a queue, a block, a file and a cell in its table. */
  predicate Usable(g: Config) {
    0 < g.nd && g.nc == 1 && 2 <= g.qd && 2 <= g.nb && 0 < g.nf && 0 < g.mb
  }

  ghost function Begin(g: Config, disk: (nat, nat) -> Byte): World
    requires Usable(g)
  {
    Start(g.nd, g.nc, g.qd, BM.Init(g.nb, g.nf, g.mb), disk)
  }

  // ---------------------------------------------------------------- queues at rest

  predicate AtRest(q: Q) {
    2 <= q.n && |q.reaped| == |q.sent|
  }

  /** One core, and every command of every queue has been reaped. */
  ghost predicate Idle(w: World) {
    w.core.nc == 1 && forall ch :: IsChan(w.core, ch) ==> ch in w.qps && AtRest(w.qps[ch])
  }

  lemma RestingQueue(q: Q)
    requires Reachable(q) && AtRest(q)
    ensures q.sqTail < |q.done| && q.done[q.sqTail] != 0 && |q.io| == |q.sent|
  {
    ReachableInv(q);
    AllReaped(q);
    if q.sent != [] {
      assert q.stage[|q.sent| - 1] == Reaped;
    }
  }

  /** The queue of ch has got one command more. */
  predicate OneMore(w: World, w': World, ch: Chan) {
    && Elsewhere(w, w'.(core := w'.core.(fs := w.core.fs)), ch) && ch in w.qps && ch in w'.qps
    && w'.qps[ch].n == w.qps[ch].n && w'.qps[ch].io == w.qps[ch].io && |w'.qps[ch].sent| == |w.qps[ch].sent| + 1
  }

  lemma RoomForOne(w: World, w': World, ch: Chan)
    requires Queues(w) && Idle(w) && IsChan(w.core, ch) && OneMore(w, w', ch)
    ensures |w'.qps[ch].sent| - |w'.qps[ch].io| < w'.qps[ch].n
  {
    QueueFacts(w, ch);
    RestingQueue(w.qps[ch]);
  }

  lemma IdleAgain(w: World, w1: World, w': World, ch: Chan)
    requires Idle(w) && IsChan(w.core, ch) && OneMore(w, w1, ch) && Elsewhere(w1, w', ch)
    requires ch in w'.qps && w'.qps[ch].n == w1.qps[ch].n && |w'.qps[ch].reaped| == |w'.qps[ch].sent|
    ensures Idle(w') && IsChan(w'.core, ch)
  {
    forall dh | IsChan(w'.core, dh) ensures dh in w'.qps && AtRest(w'.qps[dh]) {
      assert IsChan(w.core, dh);
    }
  }

  /** Drive and poller bring the stack to rest again. */
  lemma Settle(w: World, w1: World, ch: Chan) returns (more: seq<Action>, w': World)
    requires Queues(w) && Idle(w) && Stack.Inv(w1) && IsChan(w.core, ch) && OneMore(w, w1, ch)
    ensures Served(w1, more, w', ch) && Idle(w') && w'.core.fs == w1.core.fs
    ensures IsChan(w'.core, ch) && ch in w'.qps && w'.qps[ch].sent == w1.qps[ch].sent
  {
    RoomForOne(w, w1, ch);
    more, w' := ChannelDrains(w1, ch);
    ServicesElsewhere(w1, more, w', ch);
    Progress.ServiceCounts(w1, more, w', ch);
    IdleAgain(w, w1, w', ch);
  }

  // ---------------------------------------------------------------- runs

  lemma {:induction false} RunsAppend(w: World, a: seq<Action>, p: World, b: seq<Action>, w': World)
    requires Runs(w, a, p) && Runs(p, b, w')
    ensures Runs(w, a + b, w')
    decreases |b|
  {
    if b == [] {
      assert a + b == a;
    } else {
      var k := |b| - 1;
      var r :| Runs(p, b[..k], r) && StepsTo(r, b[k], w');
      RunsAppend(w, a, p, b[..k], r);
      AppendLast(a, b);
    }
  }

  lemma RunsCons(w: World, a: Action, more: seq<Action>, w': World)
    requires Can(w, a) && Runs(Next(w, a), more, w')
    ensures Runs(w, [a] + more, w')
  {
    assert Runs(w, [], w);
    RunsSnoc(w, [], w, a);
    assert [] + [a] == [a];
    RunsAppend(w, [a], Next(w, a), more, w');
  }

  lemma AfterAppend(acts: seq<Action>, w: World, more: seq<Action>, w': World)
    requires After(acts, w) && Runs(w, more, w')
    ensures After(acts + more, w')
  {
    var g, disk :| StartsAndRuns(g, disk, acts, w);
    RunsAppend(Start(g.nd, g.nc, g.qd, BM.Init(g.nb, g.nf, g.mb), disk), acts, w, more, w');
    assert StartsAndRuns(g, disk, acts + more, w');
  }

  /** The actions led here, nothing is under way, and the first block of file 0 can be written. */
  ghost predicate At(acts: seq<Action>, w: World) {
    exists g, disk :: StartsAndRuns(g, disk, acts, w) && Idle(w) && BM.Enabled(w.core.fs, BM.Write(0, 0))
  }

  /** And the file has that block. */
  ghost predicate AtFile(acts: seq<Action>, w: World) {
    exists g, disk :: StartsAndRuns(g, disk, acts, w) && AtRestWithFile(w)
  }

  ghost predicate AtRestWithFile(w: World) {
    Idle(w) && BM.Enabled(w.core.fs, BM.Write(0, 0)) && Has(w.core.fs, 0, 0)
  }

  lemma FileIsAt(acts: seq<Action>, w: World)
    requires AtFile(acts, w)
    ensures At(acts, w)
  {
  }

  lemma AtMeans(acts: seq<Action>, w: World)
    ensures At(acts, w) <==> After(acts, w) && Idle(w) && BM.Enabled(w.core.fs, BM.Write(0, 0))
    ensures AtFile(acts, w) <==> After(acts, w) && AtRestWithFile(w)
  {
  }

  // ---------------------------------------------------------------- the steps of the run

  const OPEN := Open("a", 0)

  /** The file opens, and its first block can then be written. */
  lemma FileOpens(nb: nat, nf: nat, mb: nat)
    requires 2 <= nb && 0 < nf && 0 < mb
    ensures BM.Enabled(BM.Init(nb, nf, mb), BM.Open("a", 0))
    ensures BM.Enabled(BM.OpenAt(BM.Init(nb, nf, mb), "a", 0), BM.Write(0, 0))
  {
    var fs := BM.Init(nb, nf, mb);
    assert forall f :: 0 <= f < |fs.files| ==> fs.files[f].name == "" && !BM.Matches(fs, f, "a");
  }

  lemma BeginIdle(g: Config, disk: (nat, nat) -> Byte)
    requires Usable(g)
    ensures After([], Begin(g, disk)) && Idle(Begin(g, disk)) && Stack.Inv(Begin(g, disk))
  {
    var w := Begin(g, disk);
    StartInv(g.nd, g.nc, g.qd, g.nb, g.nf, g.mb, disk);
    assert Runs(w, [], w);
    assert StartsAndRuns(g, disk, [], w);
    forall ch | IsChan(w.core, ch) ensures ch in w.qps && AtRest(w.qps[ch]) {
      assert ch == Chan(ch.d, ch.c);
    }
  }

  lemma FileOpened(g: Config, disk: (nat, nat) -> Byte) returns (w: World)
    requires Usable(g)
    ensures At([OPEN], w)
  {
    var w0 := Begin(g, disk);
    BeginIdle(g, disk);
    FileOpens(g.nb, g.nf, g.mb);
    w := Next(w0, OPEN);
    NextKeeps(w0, OPEN);
    assert Runs(w, [], w);
    RunsCons(w0, OPEN, [], w);
    AfterAppend([], w0, [OPEN] + [], w);
    assert [] + ([OPEN] + []) == [OPEN];
    AtMeans([OPEN], w);
  }

  /** Actions of drives and pollers, and reads: none of them changes what a file holds. */
  predicate Harmless(acts: seq<Action>) {
    forall i :: 0 <= i < |acts| ==> acts[i].Drive? || acts[i].Poll? || acts[i].Read?
  }

  /** A request is made and served. */
  lemma StepAndSettle(acts: seq<Action>, w: World, a: Action, ch: Chan) returns (more: seq<Action>, w': World)
    requires After(acts, w) && Idle(w) && Can(w, a) && IsChan(w.core, ch) && OneMore(w, Next(w, a), ch)
    ensures After(acts + ([a] + more), w') && Runs(w, [a] + more, w') && Runs(Next(w, a), more, w')
    ensures Harmless(more) && Idle(w') && w'.core.fs == Next(w, a).core.fs
    ensures IsChan(w'.core, ch) && ch in w'.qps && w'.qps[ch].sent == Next(w, a).qps[ch].sent
  {
    AfterHolds(acts, w);
    NextKeeps(w, a);
    more, w' := Settle(w, Next(w, a), ch);
    RunsCons(w, a, more, w');
    AfterAppend(acts, w, [a] + more, w');
  }

  /** The actions `more` lead from w to w', where the file has its first block. */
  ghost predicate Leads(acts: seq<Action>, w: World, more: seq<Action>, w': World) {
    AtFile(acts + more, w') && Runs(w, more, w')
  }

  lemma LeadsNowhere(acts: seq<Action>, w: World)
    requires AtFile(acts, w)
    ensures Leads(acts, w, [], w)
  {
    assert acts + [] == acts;
  }

  lemma LeadsOn(acts: seq<Action>, w: World, a: seq<Action>, p: World, b: seq<Action>, w': World)
    requires Runs(w, a, p) && Leads(acts + a, p, b, w')
    ensures Leads(acts, w, a + b, w')
  {
    RunsAppend(w, a, p, b, w');
    AppendAssoc(acts, a, b);
  }

  lemma UnitsAligned(off: nat)
    requires off % UNIT == 0 && off < BLOCK_SIZE
    ensures off / BLOCK_SIZE == 0 && Aligned(off, 8) && UNIT % SECTOR == 0 && UNIT / SECTOR == 8
  {
  }

  lemma UnitWrites(w: World, off: nat, data: seq<Byte>)
    requires Stack.Inv(w) && Idle(w) && BM.Enabled(w.core.fs, BM.Write(0, 0))
    requires off % UNIT == 0 && off < BLOCK_SIZE && |data| == UNIT
    ensures Stack.CanWrite(w, 0, 0, off, data)
  {
    UnitsAligned(off);
    OneCoreCanWrite(w, 0, off, data);
    var ch := WriteTarget(w, 0, off);
    assert IsChan(w.core, ch);
    QueueFacts(w, ch);
    RestingQueue(w.qps[ch]);
  }

  lemma WriteOneMore(w: World, off: nat, data: seq<Byte>) returns (ch: Chan)
    requires Stack.Inv(w) && Stack.CanWrite(w, 0, 0, off, data) && off / BLOCK_SIZE == 0
    ensures var w' := WriteStep(w, 0, 0, off, data);
      OneMore(w, w', ch) && IsChan(w.core, ch) && Has(w'.core.fs, 0, 0) && BM.Enabled(w'.core.fs, BM.Write(0, 0))
  {
    TouchedHas(w.core.fs, 0, off);
    ch := Target(Touched(w, 0, off), 0, 0, off);
  }

  lemma WriteUnit(acts: seq<Action>, w: World, off: nat, data: seq<Byte>) returns (more: seq<Action>, w': World)
    requires At(acts, w) && off % UNIT == 0 && off < BLOCK_SIZE && |data| == UNIT
    ensures Leads(acts, w, [Write(0, 0, off, data)] + more, w') && Harmless(more)
  {
    AtMeans(acts, w);
    AfterHolds(acts, w);
    UnitsAligned(off);
    UnitWrites(w, off, data);
    var ch := WriteOneMore(w, off, data);
    more, w' := StepAndSettle(acts, w, Write(0, 0, off, data), ch);
    AtMeans(acts + ([Write(0, 0, off, data)] + more), w');
  }

  lemma UnitReads(w: World, off: nat)
    requires Stack.Inv(w) && Idle(w) && Has(w.core.fs, 0, 0) && off % UNIT == 0 && off < BLOCK_SIZE
    ensures CanRead(w, 0, 0, off, 8, UNIT)
  {
    UnitsAligned(off);
    OneCoreCanRead(w, 0, off, 8, UNIT);
    var ch := Target(w, 0, 0, off);
    assert IsChan(w.core, ch);
    QueueFacts(w, ch);
    RestingQueue(w.qps[ch]);
  }

  lemma ReadOneMore(w: World, off: nat)
    requires Stack.Inv(w) && CanRead(w, 0, 0, off, 8, UNIT)
    ensures var ch := Target(w, 0, 0, off);
      OneMore(w, ReadStep(w, 0, 0, off, 8, UNIT), ch) && IsChan(w.core, ch) && ch in w.core.lanes
        && w.core.lanes[ch].sent == w.qps[ch].sent
  {
    assert QueueOk(w, Target(w, 0, 0, off));
  }

  lemma RestingIsDone(w: World, ch: Chan, t: nat)
    requires Stack.Inv(w) && Idle(w) && IsChan(w.core, ch) && ch in w.qps && t < |w.qps[ch].sent|
    ensures ReportedDone(w, ch, t)
  {
    QueueFacts(w, ch);
    ReachableInv(w.qps[ch]);
    DrainedIsDone(w.qps[ch], t);
  }

  /** How a unit is read and the read reported done. */
  ghost predicate ReadAt(x: Issue, off: nat) {
    && After(x.before, x.world) && CanRead(x.world, 0, 0, off, 8, UNIT)
    && x.ch == Target(x.world, 0, 0, off) && x.ch in x.world.core.lanes && x.t == |x.world.core.lanes[x.ch].sent|
    && Runs(ReadStep(x.world, 0, 0, off, 8, UNIT), x.until, x.answered) && ReportedDone(x.answered, x.ch, x.t)
  }

  lemma ReadUnit(acts: seq<Action>, w: World, off: nat) returns (x: Issue)
    requires AtFile(acts, w) && off % UNIT == 0 && off < BLOCK_SIZE
    ensures x.before == acts && x.world == w && ReadAt(x, off)
    ensures Harmless(x.until) && Leads(acts, w, [Read(0, 0, off, 8, UNIT)] + x.until, x.answered)
  {
    AtMeans(acts, w);
    AfterHolds(acts, w);
    UnitReads(w, off);
    ReadOneMore(w, off);
    var ch := Target(w, 0, 0, off);
    var more, w' := StepAndSettle(acts, w, Read(0, 0, off, 8, UNIT), ch);
    x := Issue(acts, w, more, w', [], ch, |w.core.lanes[ch].sent|);
    AfterHolds(acts + ([Read(0, 0, off, 8, UNIT)] + more), w');
    AtMeans(acts + ([Read(0, 0, off, 8, UNIT)] + more), w');
    RestingIsDone(w', ch, x.t);
  }

  // ---------------------------------------------------------------- whole ranges

  lemma UnitPlace(n: nat, k: nat)
    requires k < n <= 512
    ensures UNIT * k % UNIT == 0 && UNIT * k < BLOCK_SIZE && UNIT * k + UNIT <= UNIT * n
    ensures Units(n)[k] == Hook.Request(0, 8, UNIT, UNIT * k)
  {
  }

  lemma HarmlessConsistent(acts: seq<Action>, data: seq<Byte>)
    requires Harmless(acts)
    ensures AllConsistent(acts, 0, 0, data)
  {
  }

  lemma ConsistentAppend(a: seq<Action>, b: seq<Action>, data: seq<Byte>)
    requires AllConsistent(a, 0, 0, data) && AllConsistent(b, 0, 0, data)
    ensures AllConsistent(a + b, 0, 0, data)
  {
  }

  /** The writes of the units from k on are among the actions, and nothing that undoes them. */
  ghost predicate WritesFrom(acts: seq<Action>, n: nat, data: seq<Byte>, k: nat)
    requires |data| == UNIT * n
  {
    && AllConsistent(acts, 0, 0, data)
    && forall i :: k <= i < n ==> UNIT * i + UNIT <= |data| && WriteAction(0, 0, 0, data, Units(n)[i]) in acts
  }

  lemma WritesFromBefore(a: Action, one: seq<Action>, rest: seq<Action>, n: nat, data: seq<Byte>, k: nat)
    requires |data| == UNIT * n && k < n <= 512 && UNIT * k + UNIT <= |data|
    requires a == WriteAction(0, 0, 0, data, Units(n)[k]) && Harmless(one) && WritesFrom(rest, n, data, k + 1)
    ensures WritesFrom([a] + one + rest, n, data, k)
  {
    PartConsistent(0, 0, 0, data, Units(n)[k]);
    HarmlessConsistent(one, data);
    ConsistentAppend([a], one, data);
    ConsistentAppend([a] + one, rest, data);
  }

  /** The units from k on are written one after the other. */
  lemma {:induction false} WriteUnits(acts: seq<Action>, w: World, n: nat, data: seq<Byte>, k: nat)
    returns (more: seq<Action>, w': World)
    requires At(acts, w) && k <= n <= 512 && |data| == UNIT * n && (k == n ==> AtFile(acts, w))
    ensures Leads(acts, w, more, w') && WritesFrom(more, n, data, k)
    decreases n - k
  {
    if k == n {
      more, w' := [], w;
      LeadsNowhere(acts, w);
    } else {
      UnitPlace(n, k);
      var a := WriteAction(0, 0, 0, data, Units(n)[k]);
      var one, p := WriteUnit(acts, w, UNIT * k, Part(data, Units(n)[k]));
      FileIsAt(acts + ([a] + one), p);
      var rest;
      rest, w' := WriteUnits(acts + ([a] + one), p, n, data, k + 1);
      more := [a] + one + rest;
      LeadsOn(acts, w, [a] + one, p, rest, w');
      WritesFromBefore(a, one, rest, n, data, k);
    }
  }

  // ---------------------------------------------------------------- reading a range

  /** What a read of unit k adds to the actions. */
  function ReadActions(x: Issue, k: nat): seq<Action> {
    [Read(0, 0, UNIT * k, 8, UNIT)] + x.until
  }

  function UnitRequest(k: nat): Hook.Request {
    Hook.Request(0, 8, UNIT, UNIT * k)
  }

  /** However the run goes on, the read of unit k stays completed. */
  ghost predicate StaysCompleted(x: Issue, k: nat) {
    forall later, w :: Runs(x.answered, later, w) ==> Completed(x.(later := later), 0, 0, 0, UnitRequest(k), w)
  }

  /** After acts, in w, unit k is read as x says. */
  ghost predicate Reads(acts: seq<Action>, w: World, x: Issue, k: nat) {
    && x.before == acts && StaysCompleted(x, k)
    && Runs(w, ReadActions(x, k), x.answered) && Harmless(ReadActions(x, k))
  }

  lemma ReadAtStays(x: Issue, k: nat)
    ensures ReadAt(x, UNIT * k) ==> StaysCompleted(x, k)
  {
  }

  lemma HarmlessRead(a: Action, more: seq<Action>)
    requires a.Read? && Harmless(more)
    ensures Harmless([a] + more)
  {
  }

  lemma NextRead(acts: seq<Action>, w: World, k: nat) returns (x: Issue)
    requires AtFile(acts, w) && k < 512
    ensures Reads(acts, w, x, k) && AtFile(acts + ReadActions(x, k), x.answered)
  {
    UnitPlace(512, k);
    x := ReadUnit(acts, w, UNIT * k);
    ReadAtStays(x, k);
    HarmlessRead(Read(0, 0, UNIT * k, 8, UNIT), x.until);
  }

  function Joined(ss: seq<seq<Action>>): seq<Action> {
    if ss == [] then [] else Joined(ss[..|ss| - 1]) + ss[|ss| - 1]
  }

  lemma {:induction false} JoinedRuns(ws: seq<World>, ss: seq<seq<Action>>)
    requires |ws| == |ss| + 1 && forall k :: 0 <= k < |ss| ==> Runs(ws[k], ss[k], ws[k + 1])
    ensures Runs(ws[0], Joined(ss), ws[|ss|])
  {
    if ss != [] {
      var k := |ss| - 1;
      JoinedRuns(ws[..k + 1], ss[..k]);
      RunsAppend(ws[0], Joined(ss[..k]), ws[k], ss[k], ws[k + 1]);
    }
  }

  lemma RunsFrom(ws: seq<World>, ss: seq<seq<Action>>, k: nat)
    requires |ws| == |ss| + 1 && k <= |ss| && forall i :: 0 <= i < |ss| ==> Runs(ws[i], ss[i], ws[i + 1])
    ensures Runs(ws[k], Joined(ss[k..]), ws[|ss|])
  {
    JoinedRuns(ws[k..], ss[k..]);
  }

  lemma HarmlessAppend(a: seq<Action>, b: seq<Action>)
    requires Harmless(a) && Harmless(b)
    ensures Harmless(a + b)
  {
  }

  lemma {:induction false} JoinedHarmless(ss: seq<seq<Action>>)
    requires forall k :: 0 <= k < |ss| ==> Harmless(ss[k])
    ensures Harmless(Joined(ss))
  {
    if ss != [] {
      JoinedHarmless(ss[..|ss| - 1]);
      HarmlessAppend(Joined(ss[..|ss| - 1]), ss[|ss| - 1]);
    }
  }

  lemma {:induction false} JoinedActions(all: seq<seq<Action>>, ss: seq<seq<Action>>)
    requires |all| == |ss| + 1 && forall k :: 0 <= k < |ss| ==> all[k + 1] == all[k] + ss[k]
    ensures all[|ss|] == all[0] + Joined(ss)
  {
    if ss != [] {
      var k := |ss| - 1;
      JoinedActions(all[..k + 1], ss[..k]);
      AppendAssoc(all[0], Joined(ss[..k]), ss[k]);
    }
  }

  /** A state and the actions that led to it. */
  datatype Moment = Moment(acts: seq<Action>, w: World)

  function Following(p: Moment, x: Issue, k: nat): Moment {
    Moment(p.acts + ReadActions(x, k), x.answered)
  }

  /** At the moments ms the first units are read, one after the other. */
  ghost predicate Linked(ms: seq<Moment>, xs: seq<Issue>) {
    && |ms| == |xs| + 1
    && forall k :: 0 <= k < |xs| ==> Link(ms[k], xs[k], k, ms[k + 1])
  }

  ghost predicate Link(p: Moment, x: Issue, k: nat, p': Moment) {
    Reads(p.acts, p.w, x, k) && p' == Following(p, x, k)
  }

  lemma LinkedSnoc(ms: seq<Moment>, xs: seq<Issue>, x: Issue, p: Moment)
    requires Linked(ms, xs) && Link(ms[|xs|], x, |xs|, p)
    ensures Linked(ms + [p], xs + [x])
  {
    var ms', xs' := ms + [p], xs + [x];
    forall k | 0 <= k < |xs'| ensures Link(ms'[k], xs'[k], k, ms'[k + 1]) {
      assert ms'[k] == ms[k];
      assert k < |xs| ==> Link(ms[k], xs[k], k, ms[k + 1]);
    }
  }

  lemma {:induction false} ReadUnits(m: Moment, n: nat) returns (ms: seq<Moment>, xs: seq<Issue>)
    requires AtFile(m.acts, m.w) && n <= 512
    ensures Linked(ms, xs) && |xs| == n && ms[0] == m && AtFile(ms[n].acts, ms[n].w)
  {
    ms, xs := [m], [];
    if 0 < n {
      ms, xs := ReadUnits(m, n - 1);
      var p := ms[n - 1];
      var x := NextRead(p.acts, p.w, n - 1);
      LinkedSnoc(ms, xs, x, Following(p, x, n - 1));
      ms, xs := ms + [Following(p, x, n - 1)], xs + [x];
    }
  }

  function Steps(xs: seq<Issue>): (ss: seq<seq<Action>>)
    ensures |ss| == |xs|
  {
    seq(|xs|, k requires 0 <= k < |xs| => ReadActions(xs[k], k))
  }

  function Worlds(ms: seq<Moment>): (ws: seq<World>)
    ensures |ws| == |ms|
  {
    seq(|ms|, k requires 0 <= k < |ms| => ms[k].w)
  }

  lemma StepRuns(ms: seq<Moment>, xs: seq<Issue>, k: nat)
    requires Linked(ms, xs) && k < |xs|
    ensures Runs(Worlds(ms)[k], Steps(xs)[k], Worlds(ms)[k + 1]) && Harmless(Steps(xs)[k])
  {
    assert Link(ms[k], xs[k], k, ms[k + 1]);
  }

  lemma RestRuns(ms: seq<Moment>, xs: seq<Issue>, k: nat)
    requires Linked(ms, xs) && k <= |xs|
    ensures Runs(Worlds(ms)[k], Joined(Steps(xs)[k..]), Worlds(ms)[|xs|])
  {
    forall i | 0 <= i < |xs| ensures Runs(Worlds(ms)[i], Steps(xs)[i], Worlds(ms)[i + 1]) {
      StepRuns(ms, xs, i);
    }
    RunsFrom(Worlds(ms), Steps(xs), k);
  }

  lemma StepsBefore(ms: seq<Moment>, xs: seq<Issue>, k: nat)
    requires Linked(ms, xs) && k <= |xs|
    ensures ms[k].acts == ms[0].acts + Joined(Steps(xs)[..k]) && Harmless(Joined(Steps(xs)[..k]))
  {
    var all := seq(k + 1, i requires 0 <= i <= k => ms[i].acts);
    var ss := Steps(xs)[..k];
    forall i | 0 <= i < |ss| ensures Harmless(ss[i]) {
      StepRuns(ms, xs, i);
    }
    JoinedHarmless(ss);
    JoinedActions(all, ss);
  }

  /** The read of unit k, as it looks once all are done. */
  function FullRead(xs: seq<Issue>, k: nat): Issue
    requires k < |xs|
  {
    xs[k].(later := Joined(Steps(xs)[k + 1..]))
  }

  lemma KthCompleted(ms: seq<Moment>, xs: seq<Issue>, k: nat)
    requires Linked(ms, xs) && k < |xs|
    ensures Completed(FullRead(xs, k), 0, 0, 0, UnitRequest(k), Worlds(ms)[|xs|])
  {
    RestRuns(ms, xs, k + 1);
    assert Link(ms[k], xs[k], k, ms[k + 1]);
  }

  // ---------------------------------------------------------------- the run

  /** The writes of all units, and then reads, are a restore as the theorem wants it. */
  lemma WritesRestore(writes: seq<Action>, rest: seq<Action>, n: nat, data: seq<Byte>)
    requires |data| == UNIT * n && WritesFrom(writes, n, data, 0) && Harmless(rest)
    ensures Restores(writes + rest, n, 0, 0, data)
  {
    HarmlessConsistent(rest, data);
    ConsistentAppend(writes, rest, data);
  }

  /** A read of a unit that holds its part of the data gets it. */
  lemma UnitFilled(x: Issue, k: nat, w: World, data: seq<Byte>)
    requires UNIT * k + UNIT <= |data| && Wrote(x.before, 0, 0, data)
    requires Delivers(w, x.ch, x.t, UNIT * k, UNIT, Contents(x.before, 0))
    ensures Filled(w, x.ch, x.t, Part(data, UnitRequest(k)))
  {
    var got, part := w.qps[x.ch].mem[x.t], Part(data, UnitRequest(k));
    forall i | 0 <= i < UNIT ensures got[i] == part[i] {
      assert LastWritten(x.before, 0, UNIT * k + i) == Some(data[UNIT * k + i - 0]);
      assert Contents(x.before, 0)(UNIT * k + i).Some?;
    }
  }

  lemma CompletedFills(x: Issue, k: nat, w: World, data: seq<Byte>)
    requires UNIT * k + UNIT <= |data| && Wrote(x.before, 0, 0, data)
    ensures Completed(x, 0, 0, 0, UnitRequest(k), w) ==> Filled(w, x.ch, x.t, Part(data, UnitRequest(k)))
  {
    CompletedDelivers(x, 0, 0, 0, UnitRequest(k), w);
    if Delivers(w, x.ch, x.t, UNIT * k, UNIT, Contents(x.before, 0)) {
      UnitFilled(x, k, w, data);
    }
  }

  /** What was before, the writes, and reads. */
  lemma PastRestores(base: seq<Action>, writes: seq<Action>, rest: seq<Action>, n: nat, data: seq<Byte>)
    requires |data| == UNIT * n && WritesFrom(writes, n, data, 0) && Harmless(rest)
    ensures var past := base + writes + rest;
      base <= past && Restores(past[|base|..], n, 0, 0, data) && Wrote(past, 0, 0, data)
  {
    WritesRestore(writes, rest, n, data);
    RestoreWrites(n, 0, 0, data, base, writes + rest);
    AppendAssoc(base, writes, rest);
    assert (base + writes + rest)[|base|..] == writes + rest;
  }

  lemma KthBefore(ms: seq<Moment>, xs: seq<Issue>, k: nat) returns (rest: seq<Action>)
    requires Linked(ms, xs) && k < |xs|
    ensures FullRead(xs, k).before == ms[0].acts + rest && Harmless(rest)
  {
    rest := Joined(Steps(xs)[..k]);
    StepsBefore(ms, xs, k);
    assert Link(ms[k], xs[k], k, ms[k + 1]);
  }

  /** Everything the theorem about restored files wants of the read of unit k. */
  lemma ReadsTheData(
    ms: seq<Moment>, xs: seq<Issue>, k: nat, base: seq<Action>, writes: seq<Action>, data: seq<Byte>)
    requires Linked(ms, xs) && k < |xs| <= 512 && ms[0].acts == base + writes
    requires |data| == UNIT * |xs| && WritesFrom(writes, |xs|, data, 0)
    ensures base <= FullRead(xs, k).before
    ensures ReadsRestored(
      FullRead(xs, k), |base|, 0, 0, Units(|xs|)[k], Worlds(ms)[|xs|], data, |xs|, 0, data)
  {
    UnitPlace(|xs|, k);
    var rest := KthBefore(ms, xs, k);
    PastRestores(base, writes, rest, |xs|, data);
    KthCompleted(ms, xs, k);
    CompletedFills(FullRead(xs, k), k, Worlds(ms)[|xs|], data);
  }

  /** All units were read after base and writes of the data, and all reads are completed. */
  ghost predicate AllReadBack(xs: seq<Issue>, base: seq<Action>, n: nat, w: World, data: seq<Byte>)
    requires |data| == UNIT * n
  {
    && |xs| == n
    && forall k :: 0 <= k < n ==>
      base <= xs[k].before && ReadsRestored(xs[k], |base|, 0, 0, Units(n)[k], w, data, n, 0, data)
  }

  /** The units are written and read back. */
  lemma WriteAndRead(base: seq<Action>, w: World, n: nat, data: seq<Byte>) returns (m: Moment, xs: seq<Issue>)
    requires At(base, w) && 0 < n <= 512 && |data| == UNIT * n
    ensures AtFile(m.acts, m.w) && AllReadBack(xs, base, n, m.w, data)
  {
    var writes, p := WriteUnits(base, w, n, data, 0);
    var ms, ys := ReadUnits(Moment(base + writes, p), n);
    m, xs := ms[n], seq(n, k requires 0 <= k < n => FullRead(ys, k));
    forall k | 0 <= k < n
      ensures base <= xs[k].before && ReadsRestored(xs[k], |base|, 0, 0, Units(n)[k], m.w, data, n, 0, data)
    {
      ReadsTheData(ms, ys, k, base, writes, data);
    }
  }

  lemma ReadBackServes(x: Issue, cut: nat, n: nat, k: nat, w: World, data: seq<Byte>)
    requires |data| == UNIT * n && k < n
    ensures ReadsRestored(x, cut, 0, 0, Units(n)[k], w, data, n, 0, data) ==>
      Serves(x, 0, 0, 0, Units(n)[k], w, data, Holding(0, data))
  {
    if ReadsRestored(x, cut, 0, 0, Units(n)[k], w, data, n, 0, data) {
      RestoredReadsBack(x, cut, 0, 0, Units(n)[k], w, data, n, 0, data);
      WroteIsHeld(x.before, 0, 0, data, |data|);
    }
  }

  lemma AllSaved(xs: seq<Issue>, base: seq<Action>, n: nat, w: World, data: seq<Byte>)
    requires |data| == UNIT * n && AllReadBack(xs, base, n, w, data)
    ensures SavedUnits(n, xs, 0, 0, w, data, Holding(0, data))
  {
    forall k | 0 <= k < n ensures Serves(xs[k], 0, 0, 0, Units(n)[k], w, data, Holding(0, data)) {
      ReadBackServes(xs[k], |base|, n, k, w, data);
    }
  }

  /** Other data is written over the units, then the old data again, and it is read back. */
  lemma Restored(backup: Moment, n: nat, data: seq<Byte>, other: seq<Byte>)
    returns (base: seq<Action>, ys: seq<Issue>, w: World)
    requires AtFile(backup.acts, backup.w) && 0 < n <= 512 && |data| == |other| == UNIT * n
    ensures backup.acts <= base && Wrote(base, 0, 0, other) && AllReadBack(ys, base, n, w, data)
  {
    FileIsAt(backup.acts, backup.w);
    var writes, p := WriteUnits(backup.acts, backup.w, n, other, 0);
    PastRestores(backup.acts, writes, [], n, other);
    base := backup.acts + writes;
    assert base + [] == base;
    FileIsAt(base, p);
    var end;
    end, ys := WriteAndRead(base, p, n, data);
    w := end.w;
  }

  /**
   The run: n units are written and backed up, other data is written over them, the backup is restored and
   read back.  The hypotheses of BackupOnStack.RestoredReads hold of it, with |base| as the cut of every read.
  */
  lemma BackupAndRestore(g: Config, disk: (nat, nat) -> Byte, n: nat, data: seq<Byte>, other: seq<Byte>)
    returns (xs: seq<Issue>, backup: Moment, base: seq<Action>, ys: seq<Issue>, w: World)
    requires Usable(g) && 0 < n <= 512 && |data| == |other| == UNIT * n
    ensures After(backup.acts, backup.w) && SavedUnits(n, xs, 0, 0, backup.w, data, Holding(0, data))
    ensures backup.acts <= base && Wrote(base, 0, 0, other) && AllReadBack(ys, base, n, w, data)
  {
    var w0 := FileOpened(g, disk);
    backup, xs := WriteAndRead([OPEN], w0, n, data);
    AllSaved(xs, [OPEN], n, backup.w, data);
    AtMeans(backup.acts, backup.w);
    base, ys, w := Restored(backup, n, data, other);
  }
}
