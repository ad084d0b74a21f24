/**
 The whole storage stack: the file map of mylib/myfs.c, the chunks of mylib/hook.c, the queue
 pairs of mylib/nvme.cc for every drive and core, and the drives.  Main result: a completed
 read has delivered the bytes last written to its file range before it was issued.
*/
module Stack {
  import opened Prelude
  import opened Arithmetic
  import opened Addressing
  import BM = BlockMap
  import opened QueuePair
  import opened QueuePairRuns
  import opened Coherence

  datatype World = World(core: Core, qps: map<Chan, Q>)

  datatype Action =
    | Open(name: string, f: nat)
    | Drop(f: nat)
    | Write(c: nat, f: nat, off: nat, data: seq<Byte>)
    | Read(c: nat, f: nat, off: nat, nblk: nat, len: nat)
    | Drive(ch: Chan, e: Event)
    | Poll(ch: Chan)

  function Layout(nd: nat): (nat, nat) -> Place
    requires 0 < nd
  {
    (x: nat, o: nat) => Place(HomeDrive(ByteAddress(x, o), nd), HomeByte(ByteAddress(x, o), nd))
  }

  /** A chunk as the loops of hook.c form them: whole sectors inside one stripe unit. */
  predicate Aligned(off: nat, nblk: nat) {
    off % SECTOR == 0 && 1 <= nblk && off % UNIT + nblk * SECTOR <= UNIT
  }

  /** The channel and the command nvme_read_req / nvme_write_req choose. */
  function Target(w: World, c: nat, f: nat, off: nat): Chan
    requires 0 < w.core.nd && Has(w.core.fs, f, off)
  {
    Chan(Addressing.Drive(BlockLba(Block(w.core.fs, f, off), off), w.core.nd), c)
  }

  function Command(w: World, cid: nat, f: nat, off: nat, write: bool, nblk: nat, len: nat, data: seq<Byte>): Req
    requires 0 < w.core.nd && Has(w.core.fs, f, off)
  {
    Req(cid, write, DriveSector(BlockLba(Block(w.core.fs, f, off), off), w.core.nd), nblk, len, data)
  }

  // ---------------------------------------------------------------- the invariant

  ghost predicate Queues(w: World) {
    forall ch :: IsChan(w.core, ch) ==> QueueOk(w, ch)
  }

  ghost predicate QueueOk(w: World, ch: Chan) {
    && ch in w.qps && ch in w.core.lanes && Reachable(w.qps[ch])
    && w.qps[ch].sent == w.core.lanes[ch].sent && w.qps[ch].io == w.core.lanes[ch].io
  }

  ghost predicate Inv(w: World) {
    && 0 < w.core.nd && w.core.at == Layout(w.core.nd)
    && BM.Inv(w.core.fs) && Coherence.Inv(w.core) && Queues(w)
  }

  // ---------------------------------------------------------------- steps

  /** The block map and contents after an open or an unlink. */
  function Dropped(w: World, f: nat): World
    requires BM.Shape(w.core.fs) && f < |w.core.fs.files| && w.core.fs.files[f].nblock <= |w.core.fs.files[f].block|
  {
    var gone := w.core.fs.files[f].refs == 0;
    w.(core := w.core.(fs := BM.TryUnlink(w.core.fs, f),
                       spec := (g: nat, o: nat) => if g == f && gone then None else w.core.spec(g, o)))
  }

  function Touched(w: World, f: nat, off: nat): World
    requires BM.Shape(w.core.fs) && BM.Cell(w.core.fs, f, off / BLOCK_SIZE)
  {
    w.(core := w.core.(fs := BM.Touch(w.core.fs, f, off / BLOCK_SIZE, true)))
  }

  ghost predicate CanSubmit(w: World, ch: Chan, r: Req) {
    && Lanes(w.core) && IsChan(w.core, ch) && ch in w.qps && ch in w.core.lanes
    && Enabled(w.qps[ch], Submit(r.write, r.slba, r.nblk, r.len, r.data)) && r.cid == w.qps[ch].sqTail
    && NoRace(w.core, ch, r)
  }

  function Submit1(w: World, ch: Chan, r: Req, want: seq<Option<Byte>>): World
    requires ch in w.qps && ch in w.core.lanes && Enabled(w.qps[ch], Submit(r.write, r.slba, r.nblk, r.len, r.data))
  {
    World(Submitted(w.core, ch, r, want),
          w.qps[ch := SubmitStep(w.qps[ch], r.write, r.slba, r.nblk, r.len, r.data)])
  }

  ghost predicate CanWrite(w: World, c: nat, f: nat, off: nat, data: seq<Byte>) {
    && 0 < w.core.nd && BM.Enabled(w.core.fs, BM.Write(f, off / BLOCK_SIZE))
    && |data| % SECTOR == 0 && Aligned(off, |data| / SECTOR)
    && var t := Touched(w, f, off);
       Has(t.core.fs, f, off) && c < w.core.nc
       && Target(t, c, f, off) in w.qps
       && var ch := Target(t, c, f, off);
          CanSubmit(t, ch, Command(t, w.qps[ch].sqTail, f, off, true, |data| / SECTOR, |data|, data))
  }

  function WriteStep(w: World, c: nat, f: nat, off: nat, data: seq<Byte>): World
    requires CanWrite(w, c, f, off, data)
  {
    var t := Touched(w, f, off);
    var ch := Target(t, c, f, off);
    var r := Command(t, w.qps[ch].sqTail, f, off, true, |data| / SECTOR, |data|, data);
    var s := Submit1(t, ch, r, []);
    s.(core := s.core.(spec := SpecAfter(w.core.spec, f, off, data)))
  }

  ghost predicate CanRead(w: World, c: nat, f: nat, off: nat, nblk: nat, len: nat) {
    && 0 < w.core.nd && Has(w.core.fs, f, off) && Aligned(off, nblk) && c < w.core.nc
    && Target(w, c, f, off) in w.qps
    && CanSubmit(w, Target(w, c, f, off), Command(w, w.qps[Target(w, c, f, off)].sqTail, f, off, false, nblk, len, []))
  }

  function ReadStep(w: World, c: nat, f: nat, off: nat, nblk: nat, len: nat): World
    requires CanRead(w, c, f, off, nblk, len)
  {
    var ch := Target(w, c, f, off);
    Submit1(w, ch, Command(w, w.qps[ch].sqTail, f, off, false, nblk, len, []), Entitled(w.core.spec, f, off, len))
  }

  ghost predicate CanDrive(w: World, ch: Chan, e: Event) {
    && IsChan(w.core, ch) && ch in w.qps && ch in w.core.lanes && Enabled(w.qps[ch], e)
    && match e
       case Fetch(payload) => |w.core.lanes[ch].io| < |w.core.lanes[ch].sent| && ReturnsDisk(w.core, ch, payload)
       case Post(_) => true
       case _ => false
  }

  /** A read command is answered with what the drive holds. */
  predicate ReturnsDisk(w: Core, ch: Chan, payload: seq<Byte>)
    requires ch in w.lanes && |w.lanes[ch].io| < |w.lanes[ch].sent|
  {
    var r := w.lanes[ch].sent[|w.lanes[ch].io|];
    !r.write ==> forall k :: 0 <= k < |payload| ==> payload[k] == w.disk(ch.d, r.slba * SECTOR + k)
  }

  function DriveStep(w: World, ch: Chan, e: Event): World
    requires CanDrive(w, ch, e)
  {
    World(if e.Fetch? then Fetched(w.core, ch, e.payload) else w.core, w.qps[ch := Step(w.qps[ch], e)])
  }

  ghost predicate Can(w: World, a: Action) {
    match a
    case Open(name, f) => BM.Enabled(w.core.fs, BM.Open(name, f))
    case Drop(f) => BM.Enabled(w.core.fs, BM.Drop(f))
    case Write(c, f, off, data) => CanWrite(w, c, f, off, data)
    case Read(c, f, off, nblk, len) => CanRead(w, c, f, off, nblk, len)
    case Drive(ch, e) => CanDrive(w, ch, e)
    case Poll(ch) => IsChan(w.core, ch) && ch in w.qps && Enabled(w.qps[ch], Reap)
  }

  ghost function Next(w: World, a: Action): World
    requires Can(w, a)
  {
    match a
    case Open(name, f) => w.(core := w.core.(fs := BM.OpenAt(w.core.fs, name, f)))
    case Drop(f) => Dropped(w, f)
    case Write(c, f, off, data) => WriteStep(w, c, f, off, data)
    case Read(c, f, off, nblk, len) => ReadStep(w, c, f, off, nblk, len)
    case Drive(ch, e) => DriveStep(w, ch, e)
    case Poll(ch) => w.(qps := w.qps[ch := ReapStep(w.qps[ch])])
  }

  // ---------------------------------------------------------------- addresses

  lemma LayoutGood(w: Core)
    requires 0 < w.nd && w.at == Layout(w.nd)
    ensures GoodLayout(w)
  {
    forall x: nat, o: nat, y: nat, p: nat | w.at(x, o) == w.at(y, p)
      ensures x == y && o % BLOCK_SIZE == p % BLOCK_SIZE
    {
      HomeInjective(ByteAddress(x, o), ByteAddress(y, p), w.nd);
      QuotientUnique(x, o % BLOCK_SIZE, y, p % BLOCK_SIZE, BLOCK_SIZE);
    }
  }

  lemma ChunkByte(w: World, c: nat, f: nat, off: nat, o: nat)
    requires 0 < w.core.nd && w.core.at == Layout(w.core.nd) && Has(w.core.fs, f, off)
    requires off % SECTOR == 0 && off <= o && off % UNIT + (o - off) < UNIT
    ensures Has(w.core.fs, f, o)
    ensures Home(w.core, f, o) ==
      Place(Target(w, c, f, off).d,
            DriveSector(BlockLba(Block(w.core.fs, f, off), off), w.core.nd) * SECTOR + (o - off))
  {
    UnitInsideBlock(off, o - off);
    ChunkIsContiguous(Block(w.core.fs, f, off), off, o - off, w.core.nd);
  }

  /** The command of a chunk moves exactly the chunk's file bytes. */
  lemma CommandIsChunk(w: World, c: nat, cid: nat, f: nat, off: nat, write: bool, nblk: nat, len: nat, data: seq<Byte>)
    requires 0 < w.core.nd && w.core.at == Layout(w.core.nd) && Has(w.core.fs, f, off) && Aligned(off, nblk)
    ensures IsChunk(w.core, Target(w, c, f, off), Command(w, cid, f, off, write, nblk, len, data), f, off)
  {
    forall o: nat | off <= o < off + nblk * SECTOR
      ensures Has(w.core.fs, f, o)
      ensures Home(w.core, f, o) ==
        Place(Target(w, c, f, off).d,
              DriveSector(BlockLba(Block(w.core.fs, f, off), off), w.core.nd) * SECTOR + (o - off))
    {
      ChunkByte(w, c, f, off, o);
    }
  }

  lemma BlocksUnshared(fs: BM.Fs)
    requires BM.Inv(fs)
    ensures Unshared(fs)
  {
    var p :| BM.Placed(fs, p);
    forall f: nat, o: nat, g: nat, q: nat | Has(fs, f, o) && Has(fs, g, q) && Block(fs, f, o) == Block(fs, g, q)
      ensures f == g && o / BLOCK_SIZE == q / BLOCK_SIZE
    {
      BM.CellsDiffer(fs, p, f, o / BLOCK_SIZE, g, q / BLOCK_SIZE);
    }
  }

  // ---------------------------------------------------------------- preservation: queues

  lemma QueueStep(w: World, w': World, ch: Chan, e: Event)
    requires Queues(w) && IsChan(w.core, ch) && Enabled(w.qps[ch], e)
    requires w'.core.nd == w.core.nd && w'.core.nc == w.core.nc && w'.qps == w.qps[ch := Step(w.qps[ch], e)]
    requires ch in w'.core.lanes && w'.core.lanes == w.core.lanes[ch := w'.core.lanes[ch]]
    requires Step(w.qps[ch], e).sent == w'.core.lanes[ch].sent && Step(w.qps[ch], e).io == w'.core.lanes[ch].io
    ensures Queues(w')
  {
    assert QueueOk(w, ch);
    ReachableStep(w.qps[ch], e);
    forall dh | IsChan(w'.core, dh) ensures QueueOk(w', dh) {
      assert IsChan(w.core, dh) && QueueOk(w, dh);
    }
  }

  lemma QueuesSame(w: World, w': World)
    requires Queues(w) && w'.qps == w.qps && w'.core.lanes == w.core.lanes && w'.core.nd == w.core.nd
      && w'.core.nc == w.core.nc
    ensures Queues(w')
  {
    forall ch | IsChan(w'.core, ch) ensures QueueOk(w', ch) {
      assert IsChan(w.core, ch) && QueueOk(w, ch);
    }
  }

  lemma SubmitQueues(w: World, ch: Chan, r: Req, want: seq<Option<Byte>>)
    requires Queues(w) && CanSubmit(w, ch, r)
    ensures Queues(Submit1(w, ch, r, want))
  {
    assert QueueOk(w, ch);
    QueueStep(w, Submit1(w, ch, r, want), ch, Submit(r.write, r.slba, r.nblk, r.len, r.data));
  }

  // ---------------------------------------------------------------- preservation: files

  lemma OpenFiles(w: Core, name: string, f: nat)
    requires Coherence.Inv(w) && BM.AllCompact(w.fs) && BM.Opens(w.fs, name, f)
    ensures Coherence.Inv(w.(fs := BM.OpenAt(w.fs, name, f)))
  {
    var fs' := BM.OpenAt(w.fs, name, f);
    forall g: nat, o: nat | w.spec(g, o).Some?
      ensures Has(fs', g, o) && Has(w.fs, g, o) && Block(fs', g, o) == Block(w.fs, g, o)
    {
      assert Has(w.fs, g, o);
    }
    FsStepKeeps(w, fs', w.spec);
    assert w.(fs := fs') == w.(fs := fs', spec := w.spec);
  }

  lemma TouchFiles(w: Core, f: nat, j: nat)
    requires Coherence.Inv(w) && BM.Enabled(w.fs, BM.Write(f, j))
    ensures Coherence.Inv(w.(fs := BM.Touch(w.fs, f, j, true)))
  {
    var fs' := BM.Touch(w.fs, f, j, true);
    forall g: nat, o: nat | w.spec(g, o).Some?
      ensures Has(fs', g, o) && Has(w.fs, g, o) && Block(fs', g, o) == Block(w.fs, g, o)
    {
      assert Has(w.fs, g, o);
    }
    FsStepKeeps(w, fs', w.spec);
    assert w.(fs := fs') == w.(fs := fs', spec := w.spec);
  }

  lemma DropFiles(w: World, f: nat)
    requires Coherence.Inv(w.core) && BM.Shape(w.core.fs) && f < |w.core.fs.files|
    requires w.core.fs.files[f].nblock <= |w.core.fs.files[f].block|
    ensures Coherence.Inv(Dropped(w, f).core)
  {
    var c, c' := w.core, Dropped(w, f).core;
    forall g: nat, o: nat | c'.spec(g, o).Some?
      ensures c'.spec(g, o) == c.spec(g, o) && Has(c'.fs, g, o) && Has(c.fs, g, o)
        && Block(c'.fs, g, o) == Block(c.fs, g, o)
    {
      assert Has(c.fs, g, o);
    }
    FsStepKeeps(c, c'.fs, c'.spec);
    assert c' == c.(fs := c'.fs, spec := c'.spec);
  }

  // ---------------------------------------------------------------- preservation: requests

  lemma WriteCore(w: World, ch: Chan, r: Req, f: nat, off: nat)
    requires 0 < w.core.nd && w.core.at == Layout(w.core.nd) && Coherence.Inv(w.core) && Unshared(w.core.fs)
    requires CanSubmit(w, ch, r) && r.write && r.len == r.nblk * SECTOR && IsChunk(w.core, ch, r, f, off)
    ensures Coherence.Inv(Submitted(w.core, ch, r, []).(spec := SpecAfter(w.core.spec, f, off, r.data)))
  {
    LayoutGood(w.core);
    WriteKeeps(w.core, ch, r, f, off);
  }

  lemma WriteStepKeeps(w: World, c: nat, f: nat, off: nat, data: seq<Byte>)
    requires Inv(w) && CanWrite(w, c, f, off, data)
    ensures Inv(WriteStep(w, c, f, off, data))
  {
    var t := Touched(w, f, off);
    var ch := Target(t, c, f, off);
    var nblk := |data| / SECTOR;
    var r := Command(t, w.qps[ch].sqTail, f, off, true, nblk, |data|, data);
    TouchFiles(w.core, f, off / BLOCK_SIZE);
    BM.TouchKeeps(w.core.fs, f, off / BLOCK_SIZE);
    BlocksUnshared(t.core.fs);
    CommandIsChunk(t, c, r.cid, f, off, true, nblk, |data|, data);
    WriteCore(t, ch, r, f, off);
    QueuesSame(w, t);
    SubmitQueues(t, ch, r, []);
    QueuesSame(Submit1(t, ch, r, []), WriteStep(w, c, f, off, data));
  }

  lemma ReadStepKeeps(w: World, c: nat, f: nat, off: nat, nblk: nat, len: nat)
    requires Inv(w) && CanRead(w, c, f, off, nblk, len)
    ensures Inv(ReadStep(w, c, f, off, nblk, len))
  {
    var ch := Target(w, c, f, off);
    var r := Command(w, w.qps[ch].sqTail, f, off, false, nblk, len, []);
    CommandIsChunk(w, c, r.cid, f, off, false, nblk, len, []);
    ReadKeeps(w.core, ch, r, f, off);
    SubmitQueues(w, ch, r, Entitled(w.core.spec, f, off, len));
  }

  /** What a queue pair hands to its drive for a write is the caller's data. */
  lemma FetchHonest(w: World, ch: Chan, payload: seq<Byte>)
    requires Lanes(w.core) && QueueOk(w, ch) && CanDrive(w, ch, Fetch(payload))
    ensures Honest(w.core, ch, payload)
  {
    var q, l := w.qps[ch], w.core.lanes[ch];
    FetchedCommand(q);
    assert LaneOk(l) && Whole(l.sent[|l.io|]);
  }

  lemma DriveKeeps(w: World, ch: Chan, e: Event)
    requires Inv(w) && CanDrive(w, ch, e)
    ensures Inv(DriveStep(w, ch, e))
  {
    assert QueueOk(w, ch);
    if e.Fetch? {
      FetchHonest(w, ch, e.payload);
      Coherence.FetchKeeps(w.core, ch, e.payload);
    }
    QueueStep(w, DriveStep(w, ch, e), ch, e);
  }

  lemma NextKeeps(w: World, a: Action)
    requires Inv(w) && Can(w, a)
    ensures Inv(Next(w, a))
  {
    match a
    case Open(name, f) =>
      OpenFiles(w.core, name, f);
      BM.OpenKeeps(w.core.fs, name, f);
      QueuesSame(w, Next(w, a));
    case Drop(f) =>
      DropFiles(w, f);
      BM.TryUnlinkKeeps(w.core.fs, f);
      QueuesSame(w, Next(w, a));
    case Write(c, f, off, data) => WriteStepKeeps(w, c, f, off, data);
    case Read(c, f, off, nblk, len) => ReadStepKeeps(w, c, f, off, nblk, len);
    case Drive(ch, e) => DriveKeeps(w, ch, e);
    case Poll(ch) =>
      assert QueueOk(w, ch);
      QueueStep(w, Next(w, a), ch, Reap);
  }

  // ---------------------------------------------------------------- runs

  /** Fresh drives with any contents, fresh queues of depth qd, an empty file system. */
  ghost function Start(nd: nat, nc: nat, qd: nat, fs: BM.Fs, disk: (nat, nat) -> Byte): World
    requires 0 < nd
  {
    var chans := set d, c | 0 <= d < nd && 0 <= c < nc :: Chan(d, c);
    World(Core(nd, nc, Layout(nd), fs, disk, map ch | ch in chans :: Lane([], [], []), (_: nat, _: nat) => None),
          map ch | ch in chans :: QueuePair.Init(qd))
  }

  ghost predicate Runs(w: World, acts: seq<Action>, w': World)
    decreases |acts|
  {
    if acts == [] then w' == w
    else
      var k := |acts| - 1;
      exists p :: Runs(w, acts[..k], p) && StepsTo(p, acts[k], w')
  }

  ghost predicate StepsTo(w: World, a: Action, w': World) {
    Can(w, a) && w' == Next(w, a)
  }

  lemma StartInv(nd: nat, nc: nat, qd: nat, nb: nat, nf: nat, mb: nat, disk: (nat, nat) -> Byte)
    requires 0 < nd && 0 < qd && 2 <= nb
    ensures Inv(Start(nd, nc, qd, BM.Init(nb, nf, mb), disk))
  {
    var w := Start(nd, nc, qd, BM.Init(nb, nf, mb), disk);
    BM.InitInv(nb, nf, mb);
    assert Exec(QueuePair.Init(qd), []) == Some(QueuePair.Init(qd));
    forall ch | IsChan(w.core, ch)
      ensures QueueOk(w, ch) && LaneOk(w.core.lanes[ch]) && Pending(w.core.lanes[ch]) == []
    {
      assert ch == Chan(ch.d, ch.c);
    }
  }

  lemma {:induction false} RunKeeps(w: World, acts: seq<Action>, w': World)
    requires Inv(w) && Runs(w, acts, w')
    ensures Inv(w')
    decreases |acts|
  {
    if acts != [] {
      var p :| Runs(w, acts[..|acts| - 1], p) && StepsTo(p, acts[|acts| - 1], w');
      RunKeeps(w, acts[..|acts| - 1], p);
      NextKeeps(p, acts[|acts| - 1]);
    }
  }

  // ---------------------------------------------------------------- the plain contents

  /** The contents after one more action. */
  function ContentsAfter(v: Option<Byte>, a: Action, f: nat, o: nat): Option<Byte> {
    match a
    case Write(_, g, off, data) => if g == f && off <= o < off + |data| then Some(data[o - off]) else v
    case Drop(g) => if g == f then None else v
    case _ => v
  }

  /** The byte last written at offset o of file f since f last came into being, going by the actions alone. */
  function LastWritten(acts: seq<Action>, f: nat, o: nat): Option<Byte> {
    if acts == [] then None
    else ContentsAfter(LastWritten(acts[..|acts| - 1], f, o), acts[|acts| - 1], f, o)
  }

  /** The contents of file f after the actions. */
  function Contents(acts: seq<Action>, f: nat): nat -> Option<Byte> {
    (o: nat) => LastWritten(acts, f, o)
  }

  predicate NoneHeld(w: World) {
    forall f :: 0 <= f < |w.core.fs.files| ==> w.core.fs.files[f].refs == 0
  }

  lemma NextNoneHeld(w: World, a: Action)
    requires NoneHeld(w) && Can(w, a)
    ensures NoneHeld(Next(w, a))
  {
  }

  lemma NextSpec(w: World, a: Action, f: nat, o: nat)
    requires NoneHeld(w) && Can(w, a)
    ensures Next(w, a).core.spec(f, o) == ContentsAfter(w.core.spec(f, o), a, f, o)
  {
  }

  /** The specification the stack is proved against is the plain contents. */
  lemma {:induction false} SpecIsLastWritten(w: World, acts: seq<Action>, w': World, f: nat, o: nat)
    requires NoneHeld(w) && w.core.spec(f, o) == None && Runs(w, acts, w')
    ensures NoneHeld(w') && w'.core.spec(f, o) == LastWritten(acts, f, o)
    decreases |acts|
  {
    if acts != [] {
      var a := acts[|acts| - 1];
      var p :| Runs(w, acts[..|acts| - 1], p) && StepsTo(p, a, w');
      SpecIsLastWritten(w, acts[..|acts| - 1], p, f, o);
      NextNoneHeld(p, a);
      NextSpec(p, a, f, o);
    }
  }

  // ---------------------------------------------------------------- requests are remembered

  predicate Grows(w: World, w': World, ch: Chan) {
    && ch in w.core.lanes && ch in w'.core.lanes && w'.core.nd == w.core.nd && w'.core.nc == w.core.nc
    && w.core.lanes[ch].sent <= w'.core.lanes[ch].sent && w.core.lanes[ch].want <= w'.core.lanes[ch].want
  }

  lemma NextGrows(w: World, a: Action, ch: Chan)
    requires Can(w, a) && ch in w.core.lanes
    ensures Grows(w, Next(w, a), ch)
  {
  }

  lemma {:induction false} RunGrows(w: World, acts: seq<Action>, w': World, ch: Chan)
    requires Runs(w, acts, w') && ch in w.core.lanes
    ensures Grows(w, w', ch)
    decreases |acts|
  {
    if acts != [] {
      var a := acts[|acts| - 1];
      var p :| Runs(w, acts[..|acts| - 1], p) && StepsTo(p, a, w');
      RunGrows(w, acts[..|acts| - 1], p, ch);
      NextGrows(p, a, ch);
    }
  }

  lemma SubmitEvent(w: World, dh: Chan, r: Req, want: seq<Option<Byte>>, ch: Chan) returns (es: seq<Event>)
    requires CanSubmit(w, dh, r) && ch in w.qps
    ensures var w' := Submit1(w, dh, r, want); ch in w'.qps && Exec(w.qps[ch], es) == Some(w'.qps[ch])
  {
    var e := Submit(r.write, r.slba, r.nblk, r.len, r.data);
    if dh == ch {
      OneEvent(w.qps[ch], e);
    }
    es := if dh == ch then [e] else [];
  }

  /** An action of the stack is an event of one queue at most. */
  lemma NextQueue(w: World, a: Action, ch: Chan) returns (es: seq<Event>)
    requires Can(w, a) && ch in w.qps
    ensures ch in Next(w, a).qps && Exec(w.qps[ch], es) == Some(Next(w, a).qps[ch])
  {
    es := [];
    match a
    case Open(_, _) =>
    case Drop(_) =>
    case Write(c, f, off, data) =>
      var t := Touched(w, f, off);
      var dh := Target(t, c, f, off);
      es := SubmitEvent(
        t, dh, Command(t, w.qps[dh].sqTail, f, off, true, |data| / SECTOR, |data|, data), [], ch);
    case Read(c, f, off, nblk, len) =>
      var dh := Target(w, c, f, off);
      es := SubmitEvent(
        w, dh, Command(w, w.qps[dh].sqTail, f, off, false, nblk, len, []), Entitled(w.core.spec, f, off, len), ch);
    case Drive(dh, e) =>
      if dh == ch {
        OneEvent(w.qps[ch], e);
        es := [e];
      }
    case Poll(dh) =>
      if dh == ch {
        OneEvent(w.qps[ch], Reap);
        es := [Reap];
      }
  }

  /** A run of the stack is a run of each of its queues. */
  lemma {:induction false} RunQueue(w: World, acts: seq<Action>, w': World, ch: Chan) returns (es: seq<Event>)
    requires Runs(w, acts, w') && ch in w.qps
    ensures ch in w'.qps && Exec(w.qps[ch], es) == Some(w'.qps[ch])
    decreases |acts|
  {
    if acts == [] {
      es := [];
    } else {
      var k := |acts| - 1;
      var p :| Runs(w, acts[..k], p) && StepsTo(p, acts[k], w');
      var before := RunQueue(w, acts[..k], p, ch);
      var last := NextQueue(p, acts[k], ch);
      ExecAppend(w.qps[ch], before, last);
      es := before + last;
    }
  }

  // ---------------------------------------------------------------- main results

  /** A read whose slot is reported done has delivered every byte its caller was entitled to. */
  lemma DoneReadDelivered(w: World, ch: Chan, t: nat)
    requires Inv(w) && IsChan(w.core, ch) && t < |w.core.lanes[ch].sent| && !w.core.lanes[ch].sent[t].write
    requires w.qps[ch].done[w.core.lanes[ch].sent[t].cid] == 1
    ensures var q, l := w.qps[ch], w.core.lanes[ch];
      && t in q.mem && |q.mem[t]| == |l.want[t]| == l.sent[t].len
      && forall k :: 0 <= k < l.sent[t].len && l.want[t][k].Some? ==> q.mem[t][k] == l.want[t][k].value
  {
    assert QueueOk(w, ch);
    var q, l := w.qps[ch], w.core.lanes[ch];
    CheckSound(q, t);
    assert LaneOk(l);
    forall k | 0 <= k < l.sent[t].len && l.want[t][k].Some? ensures q.mem[t][k] == l.want[t][k].value {
      assert Wants(w.core, ch, t, k);
      assert WillRead(w.core, ch, t, k, l.want[t][k].value);
    }
  }

  /** Request t of a channel has filled its buffer with the given contents from offset off on, where there are any. */
  ghost predicate Delivers(w: World, ch: Chan, t: nat, off: nat, len: nat, contents: nat -> Option<Byte>) {
    && ch in w.qps && t in w.qps[ch].mem && |w.qps[ch].mem[t]| == len
    && forall o: nat :: off <= o < off + len && contents(o).Some? ==> w.qps[ch].mem[t][o - off] == contents(o).value
  }

  /** nvme_check answers 1 for request t of a channel. */
  ghost predicate ReportedDone(w: World, ch: Chan, t: nat) {
    && ch in w.qps && t < |w.qps[ch].sent| && w.qps[ch].sent[t].cid < |w.qps[ch].done|
    && w.qps[ch].done[w.qps[ch].sent[t].cid] == 1
  }

  lemma EntitledDelivers(w: World, ch: Chan, t: nat, spec: (nat, nat) -> Option<Byte>, f: nat, off: nat, len: nat)
    requires ch in w.qps && ch in w.core.lanes && t < |w.core.lanes[ch].want| && t in w.qps[ch].mem
    requires w.core.lanes[ch].want[t] == Entitled(spec, f, off, len) && |w.qps[ch].mem[t]| == len
    requires forall k :: 0 <= k < len && w.core.lanes[ch].want[t][k].Some? ==>
      w.qps[ch].mem[t][k] == w.core.lanes[ch].want[t][k].value
    ensures Delivers(w, ch, t, off, len, (o: nat) => spec(f, o))
  {
    var want, got := w.core.lanes[ch].want[t], w.qps[ch].mem[t];
    forall o: nat | off <= o < off + len && spec(f, o).Some? ensures got[o - off] == spec(f, o).value {
      var k := o - off;
      assert want[k] == spec(f, off + k);
    }
  }

  /**
   However the run goes on, an issued read stays in its queue's log, in the slot it was given, with what it is
   entitled to.
  */
  lemma IssuedStays(w: World, c: nat, f: nat, off: nat, nblk: nat, len: nat, after: seq<Action>, w': World)
    requires Inv(w) && CanRead(w, c, f, off, nblk, len) && Runs(ReadStep(w, c, f, off, nblk, len), after, w')
    ensures Inv(w') && w'.core.nc == w.core.nc
    ensures var ch := Target(w, c, f, off); var t := |w.core.lanes[ch].sent|;
      && IsChan(w.core, ch) && IsChan(w'.core, ch) && w.qps[ch].sqTail < w.qps[ch].n && QueueOk(w', ch)
      && t < |w'.qps[ch].sent| && w'.qps[ch].sent[t].cid == w.qps[ch].sqTail
      && !w'.qps[ch].sent[t].write && w'.qps[ch].sent[t].len == len
      && t < |w'.core.lanes[ch].want| && w'.core.lanes[ch].want[t] == Entitled(w.core.spec, f, off, len)
  {
    var ch, w1 := Target(w, c, f, off), ReadStep(w, c, f, off, nblk, len);
    assert QueueOk(w, ch) && Lanes(w.core) && LaneOk(w.core.lanes[ch]);
    ReadStepKeeps(w, c, f, off, nblk, len);
    RunKeeps(w1, after, w');
    RunGrows(w1, after, w', ch);
    assert QueueOk(w', ch);
  }

  /** Numbers of drives, cores and commands of a queue, and the sizes of the superblock. */
  datatype Config = Config(nd: nat, nc: nat, qd: nat, nb: nat, nf: nat, mb: nat)

  /** Any state the stack can get into from the start by the actions `acts`. */
  ghost predicate After(acts: seq<Action>, w: World) {
    exists g: Config, disk: (nat, nat) -> Byte :: StartsAndRuns(g, disk, acts, w)
  }

  ghost predicate StartsAndRuns(g: Config, disk: (nat, nat) -> Byte, acts: seq<Action>, w: World) {
    0 < g.nd && 0 < g.qd && 2 <= g.nb && Runs(Start(g.nd, g.nc, g.qd, BM.Init(g.nb, g.nf, g.mb), disk), acts, w)
  }

  lemma AfterHolds(acts: seq<Action>, w: World)
    requires After(acts, w)
    ensures Inv(w) && forall f: nat, o: nat :: w.core.spec(f, o) == LastWritten(acts, f, o)
  {
    var g, disk :| StartsAndRuns(g, disk, acts, w);
    var s := Start(g.nd, g.nc, g.qd, BM.Init(g.nb, g.nf, g.mb), disk);
    StartInv(g.nd, g.nc, g.qd, g.nb, g.nf, g.mb, disk);
    RunKeeps(s, acts, w);
    forall f: nat, o: nat ensures w.core.spec(f, o) == LastWritten(acts, f, o) {
      SpecIsLastWritten(s, acts, w, f, o);
    }
  }

  /**
   End-to-end correctness.  Take any run of opens, unlinks, chunk writes and chunk reads by any
   cores, interleaved with anything the drives and pollers do, in which conflicting requests of
   different cores never overlap in time.  If after it nvme_check reports the read as done, the
   destination holds, for every offset written since the file came into being, the byte that was
   last written there before the read was issued.
  */
  lemma ReadReturnsLastWritten(
    before: seq<Action>, w: World, c: nat, f: nat, off: nat, nblk: nat, len: nat, after: seq<Action>, w': World)
    requires After(before, w) && CanRead(w, c, f, off, nblk, len) && Runs(ReadStep(w, c, f, off, nblk, len), after, w')
    requires ReportedDone(w', Target(w, c, f, off), |w.core.lanes[Target(w, c, f, off)].sent|)
    ensures var ch := Target(w, c, f, off);
      Delivers(w', ch, |w.core.lanes[ch].sent|, off, len, Contents(before, f))
  {
    AfterHolds(before, w);
    IssuedStays(w, c, f, off, nblk, len, after, w');
    var ch := Target(w, c, f, off);
    var t := |w.core.lanes[ch].sent|;
    DoneReadDelivered(w', ch, t);
    EntitledDelivers(w', ch, t, w.core.spec, f, off, len);
    SameContents(w', ch, t, off, len, (o: nat) => w.core.spec(f, o), Contents(before, f));
  }

  // ---------------------------------------------------------------- by request identifier

  /** What nvme_read_req returns for this chunk. */
  function IssuedRid(w: World, c: nat, f: nat, off: nat): nat
    requires 0 < w.core.nd && Has(w.core.fs, f, off) && Target(w, c, f, off) in w.qps
  {
    var ch := Target(w, c, f, off);
    Rid(ch.d, ch.c, w.qps[ch].sqTail, w.qps[ch].n, w.core.nc)
  }

  /** nvme_check answers 1 for an identifier: its drive, core and slot are taken from the number. */
  predicate NvmeCheck(w: World, qd: nat, rid: nat)
    requires 0 < qd && 0 < w.core.nc
  {
    var ch := Chan(rid / qd / w.core.nc, rid / qd % w.core.nc);
    ch in w.qps && rid % qd < |w.qps[ch].done| && w.qps[ch].done[rid % qd] == 1
  }

  /** An answer of 1 for the identifier is about the request itself. */
  lemma CheckedIsReported(w: World, ch: Chan, t: nat, cid: nat, qd: nat)
    requires ch.c < w.core.nc && cid < qd && ch in w.qps && t < |w.qps[ch].sent| && w.qps[ch].sent[t].cid == cid
    requires NvmeCheck(w, qd, Rid(ch.d, ch.c, cid, qd, w.core.nc))
    ensures ReportedDone(w, ch, t)
  {
    RidRoundTrips(ch.d, ch.c, cid, qd, w.core.nc);
    assert Chan(ch.d, ch.c) == ch;
  }

  /** The end-to-end theorem for a caller who knows a request by its identifier only. */
  lemma CheckedReadReturnsLastWritten(
    before: seq<Action>, w: World, c: nat, f: nat, off: nat, nblk: nat, len: nat, after: seq<Action>, w': World)
    requires After(before, w) && CanRead(w, c, f, off, nblk, len) && Runs(ReadStep(w, c, f, off, nblk, len), after, w')
    requires var qd := w.qps[Target(w, c, f, off)].n;
      0 < qd && 0 < w'.core.nc && NvmeCheck(w', qd, IssuedRid(w, c, f, off))
    ensures var ch := Target(w, c, f, off);
      Delivers(w', ch, |w.core.lanes[ch].sent|, off, len, Contents(before, f))
  {
    AfterHolds(before, w);
    IssuedStays(w, c, f, off, nblk, len, after, w');
    var ch := Target(w, c, f, off);
    CheckedIsReported(w', ch, |w.core.lanes[ch].sent|, w.qps[ch].sqTail, w.qps[ch].n);
    ReadReturnsLastWritten(before, w, c, f, off, nblk, len, after, w');
  }

  /** What a read reported done has delivered stays delivered, however the run goes on. */
  lemma DeliveredForGood(
    w: World, ch: Chan, t: nat, off: nat, len: nat, contents: nat -> Option<Byte>, acts: seq<Action>, w': World)
    requires QueueOk(w, ch) && ReportedDone(w, ch, t) && !w.qps[ch].sent[t].write && Runs(w, acts, w')
    requires Delivers(w, ch, t, off, len, contents)
    ensures Delivers(w', ch, t, off, len, contents)
  {
    var es := RunQueue(w, acts, w', ch);
    DoneForGood(w.qps[ch], t, es);
  }

  /** The theorem for a caller who looks at the buffer later than nvme_check answered. */
  lemma ReadStaysDelivered(
    before: seq<Action>, w: World, c: nat, f: nat, off: nat, nblk: nat, len: nat, after: seq<Action>, w': World,
    later: seq<Action>, now: World)
    requires After(before, w) && CanRead(w, c, f, off, nblk, len) && Runs(ReadStep(w, c, f, off, nblk, len), after, w')
    requires ReportedDone(w', Target(w, c, f, off), |w.core.lanes[Target(w, c, f, off)].sent|)
    requires Runs(w', later, now)
    ensures var ch := Target(w, c, f, off);
      Delivers(now, ch, |w.core.lanes[ch].sent|, off, len, Contents(before, f))
  {
    var ch := Target(w, c, f, off);
    AfterHolds(before, w);
    IssuedStays(w, c, f, off, nblk, len, after, w');
    ReadReturnsLastWritten(before, w, c, f, off, nblk, len, after, w');
    DeliveredForGood(w', ch, |w.core.lanes[ch].sent|, off, len, Contents(before, f), later, now);
  }

  /**
   The read came after `before`, was issued as ticket t of channel ch, was reported done in w', and `later` the
   stack is in the state `now`.
  */
  ghost predicate ReadDone(
    before: seq<Action>, w: World, c: nat, f: nat, off: nat, nblk: nat, len: nat, after: seq<Action>, w': World,
    later: seq<Action>, now: World, ch: Chan, t: nat)
    ensures ReadDone(before, w, c, f, off, nblk, len, after, w', later, now, ch, t) ==>
      Delivers(now, ch, t, off, len, Contents(before, f))
  {
    ReadDoneDelivers(before, w, c, f, off, nblk, len, after, w', later, now, ch, t);
    && After(before, w) && CanRead(w, c, f, off, nblk, len) && ch == Target(w, c, f, off)
    && ch in w.core.lanes && t == |w.core.lanes[ch].sent|
    && Runs(ReadStep(w, c, f, off, nblk, len), after, w') && ReportedDone(w', ch, t) && Runs(w', later, now)
  }

  lemma ReadDoneDelivers(
    before: seq<Action>, w: World, c: nat, f: nat, off: nat, nblk: nat, len: nat, after: seq<Action>, w': World,
    later: seq<Action>, now: World, ch: Chan, t: nat)
    ensures
      && After(before, w) && CanRead(w, c, f, off, nblk, len) && ch == Target(w, c, f, off)
      && ch in w.core.lanes && t == |w.core.lanes[ch].sent|
      && Runs(ReadStep(w, c, f, off, nblk, len), after, w') && ReportedDone(w', ch, t) && Runs(w', later, now)
      ==> Delivers(now, ch, t, off, len, Contents(before, f))
  {
    if && After(before, w) && CanRead(w, c, f, off, nblk, len) && ch == Target(w, c, f, off)
       && ch in w.core.lanes && t == |w.core.lanes[ch].sent|
       && Runs(ReadStep(w, c, f, off, nblk, len), after, w') && ReportedDone(w', ch, t) && Runs(w', later, now) {
      ReadStaysDelivered(before, w, c, f, off, nblk, len, after, w', later, now);
    }
  }

  /** Different file bytes are at different places on the drives, in every reachable state. */
  lemma BytesHaveOwnHomes(acts: seq<Action>, w: World, f: nat, o: nat, g: nat, p: nat)
    requires After(acts, w) && Has(w.core.fs, f, o) && Has(w.core.fs, g, p)
    ensures Home(w.core, f, o) == Home(w.core, g, p) <==> f == g && o == p
  {
    AfterHolds(acts, w);
    LayoutGood(w.core);
    BlocksUnshared(w.core.fs);
    if Home(w.core, f, o) == Home(w.core, g, p) {
      HomesDistinct(w.core, f, o, g, p);
    }
  }

  lemma SameContents(w: World, ch: Chan, t: nat, off: nat, len: nat, xs: nat -> Option<Byte>, ys: nat -> Option<Byte>)
    requires Delivers(w, ch, t, off, len, xs) && forall o: nat :: xs(o) == ys(o)
    ensures Delivers(w, ch, t, off, len, ys)
  {
  }

  /** With one core the timing hypothesis holds by itself: no other queue reaches the drive. */
  lemma OneCoreNeverRaces(w: Core, ch: Chan, r: Req)
    requires Lanes(w) && w.nc == 1 && IsChan(w, ch)
    ensures NoRace(w, ch, r)
  {
  }
}
