/**
 What the drives hold compared with what callers wrote.

 A channel is the queue of one core to one drive.  It is seen here through three logs: the
 requests submitted, the data transferred for the ones the drive has fetched, and, for each
 read, the bytes its caller is entitled to.  `spec` is the plain file contents: the byte last
 written at each offset of each file since the file was created.  Writes enter `spec` when
 they are issued, long before a drive sees them.
*/
module Coherence {
  import opened Prelude
  import opened Addressing
  import BM = BlockMap
  import opened QueuePair
  import opened QueuePairRuns

  datatype Chan = Chan(d: nat, c: nat)

  datatype Lane = Lane(sent: seq<Req>, io: seq<seq<Byte>>, want: seq<seq<Option<Byte>>>)

  /** A byte of a drive. */
  datatype Place = Place(d: nat, b: nat)

  /** `at` says where the byte of a block that serves a file offset is kept. */
  datatype Core = Core(
    nd: nat, nc: nat,
    at: (nat, nat) -> Place,
    fs: BM.Fs,
    disk: (nat, nat) -> Byte,
    lanes: map<Chan, Lane>,
    spec: (nat, nat) -> Option<Byte>)

  // ---------------------------------------------------------------- requests

  predicate Covers(r: Req, b: nat) {
    r.slba * SECTOR <= b < r.slba * SECTOR + r.nblk * SECTOR
  }

  /** Requests of different cores that touch a common byte, one of them writing it, would race. */
  predicate Conflict(r: Req, s: Req) {
    (r.write || s.write) && r.slba < s.slba + s.nblk && s.slba < r.slba + r.nblk
  }

  /** A request of whole sectors. */
  predicate Whole(r: Req) {
    GoodReq(r) && (r.write ==> r.len == r.nblk * SECTOR)
  }

  /** The byte the last of the writes `rs` leaves at b, if one of them covers b. */
  function LastWrite(rs: seq<Req>, b: nat): Option<Byte> {
    if rs == [] then None
    else
      var r := rs[|rs| - 1];
      if r.write && r.slba * SECTOR <= b < r.slba * SECTOR + |r.data| then Some(r.data[b - r.slba * SECTOR])
      else LastWrite(rs[..|rs| - 1], b)
  }

  lemma {:induction false} LastWriteFirst(rs: seq<Req>, b: nat)
    requires rs != []
    ensures LastWrite(rs, b) == if LastWrite(rs[1..], b).Some? then LastWrite(rs[1..], b) else LastWrite(rs[..1], b)
  {
    var k := |rs| - 1;
    if 0 < k {
      LastWriteFirst(rs[..k], b);
      assert rs[..k][1..] == rs[1..][..k - 1] && rs[..k][..1] == rs[..1];
    } else {
      assert rs[1..] == [] && rs[..1] == rs;
    }
  }

  lemma {:induction false} LastWriteWitness(rs: seq<Req>, b: nat) returns (i: nat)
    requires LastWrite(rs, b).Some? && forall k :: 0 <= k < |rs| ==> Whole(rs[k])
    ensures i < |rs| && rs[i].write && Covers(rs[i], b)
  {
    var k := |rs| - 1;
    if rs[k].write && rs[k].slba * SECTOR <= b < rs[k].slba * SECTOR + |rs[k].data| {
      i := k;
    } else {
      i := LastWriteWitness(rs[..k], b);
    }
  }

  // ---------------------------------------------------------------- the file map

  /** File f has a block for offset o. */
  predicate Has(fs: BM.Fs, f: nat, o: nat) {
    && f < |fs.files| && o / BLOCK_SIZE < fs.files[f].nblock && o / BLOCK_SIZE < |fs.files[f].block|
    && 0 <= fs.files[f].block[o / BLOCK_SIZE]
  }

  function Block(fs: BM.Fs, f: nat, o: nat): nat
    requires Has(fs, f, o)
  {
    fs.files[f].block[o / BLOCK_SIZE]
  }

  /** No block serves two places. */
  ghost predicate Unshared(fs: BM.Fs) {
    forall f: nat, o: nat, g: nat, p: nat :: Has(fs, f, o) && Has(fs, g, p) && Block(fs, f, o) == Block(fs, g, p) ==>
      f == g && o / BLOCK_SIZE == p / BLOCK_SIZE
  }

  /** Different bytes of blocks are kept at different places of existing drives. */
  ghost predicate GoodLayout(w: Core) {
    && (forall x: nat, o: nat :: w.at(x, o).d < w.nd)
    && (forall x: nat, o: nat, y: nat, p: nat :: w.at(x, o) == w.at(y, p) ==>
          x == y && o % BLOCK_SIZE == p % BLOCK_SIZE)
  }

  function Home(w: Core, f: nat, o: nat): Place
    requires Has(w.fs, f, o)
  {
    w.at(Block(w.fs, f, o), o)
  }

  /** Different file bytes live at different places. */
  lemma HomesDistinct(w: Core, f: nat, o: nat, g: nat, p: nat)
    requires GoodLayout(w) && Has(w.fs, f, o) && Has(w.fs, g, p) && Unshared(w.fs)
    requires Home(w, f, o) == Home(w, g, p)
    ensures f == g && o == p
  {
    assert o / BLOCK_SIZE == p / BLOCK_SIZE && o % BLOCK_SIZE == p % BLOCK_SIZE;
  }

  // ---------------------------------------------------------------- the invariant

  predicate IsChan(w: Core, ch: Chan) {
    ch.d < w.nd && ch.c < w.nc
  }

  predicate LaneOk(l: Lane) {
    && |l.io| <= |l.sent| == |l.want|
    && (forall t :: 0 <= t < |l.sent| ==>
          Whole(l.sent[t]) && |l.want[t]| == if l.sent[t].write then 0 else l.sent[t].len)
    && (forall t :: 0 <= t < |l.io| ==> |l.io[t]| == l.sent[t].nblk * SECTOR)
  }

  function Pending(l: Lane): seq<Req> {
    if |l.io| <= |l.sent| then l.sent[|l.io|..] else []
  }

  ghost predicate Lanes(w: Core) {
    forall ch :: IsChan(w, ch) ==> ch in w.lanes && LaneOk(w.lanes[ch])
  }

  predicate NoConflicts(rs: seq<Req>, ss: seq<Req>) {
    forall i, j :: 0 <= i < |rs| && 0 <= j < |ss| ==> !Conflict(rs[i], ss[j])
  }

  ghost predicate RaceFree(w: Core)
    requires Lanes(w)
  {
    forall ch, dh :: IsChan(w, ch) && IsChan(w, dh) && ch.d == dh.d && ch.c != dh.c ==>
      NoConflicts(Pending(w.lanes[ch]), Pending(w.lanes[dh]))
  }

  function PendingWrite(w: Core, ch: Chan, b: nat): Option<Byte>
    requires ch in w.lanes
  {
    LastWrite(Pending(w.lanes[ch]), b)
  }

  /** Byte v is what (d, b) holds once the writes under way have been carried out. */
  ghost predicate Settles(w: Core, p: Place, v: Byte)
    requires Lanes(w)
  {
    && p.d < w.nd
    && (forall c :: 0 <= c < w.nc ==> PendingWrite(w, Chan(p.d, c), p.b) in {None, Some(v)})
    && ((forall c :: 0 <= c < w.nc ==> PendingWrite(w, Chan(p.d, c), p.b) == None) ==> w.disk(p.d, p.b) == v)
  }

  ghost predicate SpecHeld(w: Core)
    requires Lanes(w)
  {
    forall f, o :: w.spec(f, o).Some? ==>
      Has(w.fs, f, o) && Settles(w, Home(w, f, o), w.spec(f, o).value)
  }

  /** The k-th byte of the t-th request of a channel is, or is going to be, the byte v. */
  ghost predicate WillRead(w: Core, ch: Chan, t: nat, k: nat, v: Byte)
    requires Lanes(w) && IsChan(w, ch) && t < |w.lanes[ch].sent| && k < w.lanes[ch].sent[t].nblk * SECTOR
  {
    var l := w.lanes[ch];
    var b := l.sent[t].slba * SECTOR + k;
    if t < |l.io| then l.io[t][k] == v
    else
      var before := LastWrite(l.sent[|l.io|..t], b);
      before == Some(v) || (before == None && w.disk(ch.d, b) == v)
  }

  /** The caller of the t-th request of a channel is entitled to a definite k-th byte. */
  predicate Wants(w: Core, ch: Chan, t: int, k: int) {
    && IsChan(w, ch) && ch in w.lanes && 0 <= t < |w.lanes[ch].want| && 0 <= k < |w.lanes[ch].want[t]|
    && w.lanes[ch].want[t][k].Some?
  }

  ghost predicate ReadsHeld(w: Core)
    requires Lanes(w)
  {
    forall ch, t, k :: Wants(w, ch, t, k) ==> WillRead(w, ch, t, k, w.lanes[ch].want[t][k].value)
  }

  ghost predicate Inv(w: Core) {
    Lanes(w) && RaceFree(w) && SpecHeld(w) && ReadsHeld(w)
  }

  // ---------------------------------------------------------------- file-system steps

  lemma SettlesSame(w: Core, w': Core, p: Place, v: Byte)
    requires Lanes(w) && w'.nd == w.nd && w'.nc == w.nc && w'.lanes == w.lanes && w'.disk == w.disk && Settles(w, p, v)
    ensures Lanes(w') && Settles(w', p, v)
  {
    assert forall ch :: IsChan(w', ch) ==> IsChan(w, ch);
    assert forall c :: 0 <= c < w.nc ==> PendingWrite(w', Chan(p.d, c), p.b) == PendingWrite(w, Chan(p.d, c), p.b);
  }

  /** A change of the block map that keeps the blocks of everything still in `spec`. */
  lemma FsStepKeeps(w: Core, fs': BM.Fs, spec': (nat, nat) -> Option<Byte>)
    requires Inv(w)
    requires forall f, o :: spec'(f, o).Some? ==>
      spec'(f, o) == w.spec(f, o) && Has(fs', f, o) && (Has(w.fs, f, o) ==> Block(fs', f, o) == Block(w.fs, f, o))
    ensures Inv(w.(fs := fs', spec := spec'))
  {
    var w' := w.(fs := fs', spec := spec');
    forall f, o | w'.spec(f, o).Some?
      ensures Has(w'.fs, f, o) && Lanes(w') && Settles(w', Home(w', f, o), w'.spec(f, o).value)
    {
      assert w.spec(f, o).Some?;
      SettlesSame(w, w', Home(w, f, o), w.spec(f, o).value);
    }
    forall ch, t, k | Wants(w', ch, t, k) ensures WillRead(w', ch, t, k, w'.lanes[ch].want[t][k].value) {
      assert Wants(w, ch, t, k);
    }
  }

  // ---------------------------------------------------------------- submission

  function Submitted(w: Core, ch: Chan, r: Req, want: seq<Option<Byte>>): Core
    requires ch in w.lanes
  {
    var l := w.lanes[ch];
    w.(lanes := w.lanes[ch := Lane(l.sent + [r], l.io, l.want + [want])])
  }

  /** No other core has an unfetched request on this drive that conflicts with r. */
  ghost predicate NoRace(w: Core, ch: Chan, r: Req)
    requires Lanes(w)
  {
    forall dh :: IsChan(w, dh) && ch.d == dh.d && ch.c != dh.c ==> NoConflicts([r], Pending(w.lanes[dh]))
  }

  predicate Submittable(r: Req, want: seq<Option<Byte>>) {
    Whole(r) && |want| == if r.write then 0 else r.len
  }

  lemma SubmitLanes(w: Core, ch: Chan, r: Req, want: seq<Option<Byte>>)
    requires Lanes(w) && RaceFree(w) && IsChan(w, ch) && Submittable(r, want) && NoRace(w, ch, r)
    ensures Lanes(Submitted(w, ch, r, want)) && RaceFree(Submitted(w, ch, r, want))
    ensures Pending(Submitted(w, ch, r, want).lanes[ch]) == Pending(w.lanes[ch]) + [r]
  {
    var w' := Submitted(w, ch, r, want);
    assert Pending(w'.lanes[ch]) == Pending(w.lanes[ch]) + [r];
    forall a, b | IsChan(w', a) && IsChan(w', b) && a.d == b.d && a.c != b.c
      ensures NoConflicts(Pending(w'.lanes[a]), Pending(w'.lanes[b]))
    {
      assert NoConflicts(Pending(w.lanes[a]), Pending(w.lanes[b]));
      if a == ch {
        assert NoConflicts([r], Pending(w.lanes[b]));
        assert [r][0] == r;
      } else if b == ch {
        assert NoConflicts([r], Pending(w.lanes[a]));
        assert [r][0] == r;
      }
    }
  }

  /** After a submission the pending byte at b is the new request's, where it writes one. */
  lemma SubmitPending(w: Core, ch: Chan, r: Req, want: seq<Option<Byte>>, dh: Chan, b: nat)
    requires Lanes(w) && IsChan(w, ch) && IsChan(w, dh) && Submittable(r, want)
    ensures PendingWrite(Submitted(w, ch, r, want), dh, b) ==
      if dh == ch && r.write && Covers(r, b) then Some(r.data[b - r.slba * SECTOR]) else PendingWrite(w, dh, b)
  {
    var w' := Submitted(w, ch, r, want);
    if dh == ch {
      var p := Pending(w.lanes[ch]);
      assert Pending(w'.lanes[ch]) == p + [r];
      assert (p + [r])[..|p|] == p;
    }
  }

  /** Reads already submitted are not disturbed by a submission. */
  lemma SubmitKeepsReads(w: Core, ch: Chan, r: Req, want: seq<Option<Byte>>, dh: Chan, t: nat, k: nat)
    requires Lanes(w) && IsChan(w, ch) && Submittable(r, want) && Lanes(Submitted(w, ch, r, want)) && ReadsHeld(w)
    requires Wants(w, dh, t, k)
    ensures WillRead(Submitted(w, ch, r, want), dh, t, k, w.lanes[dh].want[t][k].value)
  {
    var w' := Submitted(w, ch, r, want);
    assert WillRead(w, dh, t, k, w.lanes[dh].want[t][k].value);
    var l, l' := w.lanes[dh], w'.lanes[dh];
    if |l.io| <= t {
      assert l'.sent[|l.io|..t] == l.sent[|l.io|..t];
    }
  }

  /** Request r of channel ch moves exactly the file bytes from `off` on. */
  ghost predicate IsChunk(w: Core, ch: Chan, r: Req, f: nat, off: nat) {
    forall o: nat :: off <= o < off + r.nblk * SECTOR ==>
      Has(w.fs, f, o) && Home(w, f, o) == Place(ch.d, r.slba * SECTOR + (o - off))
  }

  function SpecAfter(spec: (nat, nat) -> Option<Byte>, f: nat, off: nat, data: seq<Byte>): (nat, nat) -> Option<Byte> {
    (g: nat, o: nat) => if g == f && off <= o < off + |data| then Some(data[o - off]) else spec(g, o)
  }

  ghost predicate Writable(w: Core, ch: Chan, r: Req, f: nat, off: nat) {
    Lanes(w) && IsChan(w, ch) && Whole(r) && r.write && IsChunk(w, ch, r, f, off) && NoRace(w, ch, r)
  }

  /** Once r is submitted it is the only pending write of its bytes. */
  lemma OnlyPending(w: Core, ch: Chan, r: Req, k: nat, c: nat)
    requires Lanes(w) && IsChan(w, ch) && Submittable(r, []) && r.write && NoRace(w, ch, r)
    requires k < |r.data| && c < w.nc
    ensures PendingWrite(Submitted(w, ch, r, []), Chan(ch.d, c), r.slba * SECTOR + k) ==
      if c == ch.c then Some(r.data[k]) else None
  {
    var b := r.slba * SECTOR + k;
    assert Covers(r, b);
    SubmitPending(w, ch, r, [], Chan(ch.d, c), b);
    if c != ch.c {
      OthersDoNotWrite(w, ch, r, Chan(ch.d, c), b);
    }
  }

  lemma OwnByteSettles(w: Core, ch: Chan, r: Req, k: nat)
    requires Lanes(w) && IsChan(w, ch) && Submittable(r, []) && r.write && NoRace(w, ch, r)
    requires Lanes(Submitted(w, ch, r, [])) && k < |r.data|
    ensures Settles(Submitted(w, ch, r, []), Place(ch.d, r.slba * SECTOR + k), r.data[k])
  {
    var w', b := Submitted(w, ch, r, []), r.slba * SECTOR + k;
    forall c | 0 <= c < w.nc
      ensures PendingWrite(w', Chan(ch.d, c), b) == if c == ch.c then Some(r.data[k]) else None
    {
      OnlyPending(w, ch, r, k, c);
    }
    assert PendingWrite(w', Chan(ch.d, ch.c), b) != None;
  }

  lemma OtherByteSettles(w: Core, ch: Chan, r: Req, want: seq<Option<Byte>>, p: Place, v: Byte)
    requires Lanes(w) && IsChan(w, ch) && Submittable(r, want) && Lanes(Submitted(w, ch, r, want))
    requires Settles(w, p, v) && (r.write ==> p.d != ch.d || !Covers(r, p.b))
    ensures Settles(Submitted(w, ch, r, want), p, v)
  {
    var w' := Submitted(w, ch, r, want);
    forall c | 0 <= c < w.nc ensures PendingWrite(w', Chan(p.d, c), p.b) == PendingWrite(w, Chan(p.d, c), p.b) {
      SubmitPending(w, ch, r, want, Chan(p.d, c), p.b);
    }
  }

  /** The bytes a chunk covers are the homes of its own file bytes and of no others. */
  lemma CoveredIsOwn(w: Core, ch: Chan, r: Req, f: nat, off: nat, g: nat, o: nat)
    requires GoodLayout(w) && Unshared(w.fs) && IsChunk(w, ch, r, f, off) && Has(w.fs, g, o)
    requires Home(w, g, o).d == ch.d && Covers(r, Home(w, g, o).b)
    ensures g == f && off <= o < off + r.nblk * SECTOR
  {
    var k := Home(w, g, o).b - r.slba * SECTOR;
    HomesDistinct(w, f, off + k, g, o);
  }

  /** Request r covers the home of no file byte outside its chunk. */
  ghost predicate Apart(w: Core, ch: Chan, r: Req, f: nat, off: nat) {
    forall g: nat, o: nat :: Has(w.fs, g, o) && Home(w, g, o).d == ch.d && Covers(r, Home(w, g, o).b) ==>
      g == f && off <= o < off + r.nblk * SECTOR
  }

  lemma ChunkApart(w: Core, ch: Chan, r: Req, f: nat, off: nat)
    requires GoodLayout(w) && Unshared(w.fs) && IsChunk(w, ch, r, f, off)
    ensures Apart(w, ch, r, f, off)
  {
    forall g: nat, o: nat | Has(w.fs, g, o) && Home(w, g, o).d == ch.d && Covers(r, Home(w, g, o).b)
      ensures g == f && off <= o < off + r.nblk * SECTOR
    {
      CoveredIsOwn(w, ch, r, f, off, g, o);
    }
  }

  /** After the write its own bytes settle to its data and the others to what they did. */
  lemma ByteHeld(w: Core, ch: Chan, r: Req, p: Place, v: Byte, spec': (nat, nat) -> Option<Byte>)
    requires Lanes(w) && IsChan(w, ch) && Submittable(r, []) && r.write && NoRace(w, ch, r)
      && Lanes(Submitted(w, ch, r, []))
    requires if p.d == ch.d && Covers(r, p.b) then v == r.data[p.b - r.slba * SECTOR] else Settles(w, p, v)
    ensures var w' := Submitted(w, ch, r, []).(spec := spec'); Lanes(w') && Settles(w', p, v)
  {
    if p.d == ch.d && Covers(r, p.b) {
      var k := p.b - r.slba * SECTOR;
      assert p == Place(ch.d, r.slba * SECTOR + k);
      OwnByteSettles(w, ch, r, k);
    } else {
      OtherByteSettles(w, ch, r, [], p, v);
    }
    var w1 := Submitted(w, ch, r, []);
    SettlesSame(w1, w1.(spec := spec'), p, v);
  }

  /** Which byte a place is specified to hold after the write. */
  lemma SpecAfterWrite(w: Core, ch: Chan, r: Req, f: nat, off: nat, g: nat, o: nat)
    requires Lanes(w) && Whole(r) && r.write && IsChunk(w, ch, r, f, off) && Apart(w, ch, r, f, off) && SpecHeld(w)
    requires SpecAfter(w.spec, f, off, r.data)(g, o).Some?
    ensures Has(w.fs, g, o)
    ensures var p, v := Home(w, g, o), SpecAfter(w.spec, f, off, r.data)(g, o).value;
      if p.d == ch.d && Covers(r, p.b) then v == r.data[p.b - r.slba * SECTOR] else Settles(w, p, v)
  {
    if g == f && off <= o < off + |r.data| {
      assert Home(w, f, o) == Place(ch.d, r.slba * SECTOR + (o - off));
    } else {
      assert w.spec(g, o).Some?;
    }
  }

  lemma WriteKeepsSpec(w: Core, ch: Chan, r: Req, f: nat, off: nat)
    requires Writable(w, ch, r, f, off) && Lanes(Submitted(w, ch, r, [])) && Apart(w, ch, r, f, off) && SpecHeld(w)
    ensures SpecHeld(Submitted(w, ch, r, []).(spec := SpecAfter(w.spec, f, off, r.data)))
  {
    var spec' := SpecAfter(w.spec, f, off, r.data);
    var w' := Submitted(w, ch, r, []).(spec := spec');
    forall g: nat, o: nat | w'.spec(g, o).Some?
      ensures Has(w'.fs, g, o) && Lanes(w') && Settles(w', Home(w', g, o), w'.spec(g, o).value)
    {
      SpecAfterWrite(w, ch, r, f, off, g, o);
      ByteHeld(w, ch, r, Home(w, g, o), spec'(g, o).value, spec');
    }
  }

  lemma SubmitKeepsAllReads(w: Core, ch: Chan, r: Req, want: seq<Option<Byte>>, spec': (nat, nat) -> Option<Byte>)
    requires Lanes(w) && IsChan(w, ch) && Submittable(r, want) && Lanes(Submitted(w, ch, r, want)) && ReadsHeld(w)
    requires forall k :: Wants(Submitted(w, ch, r, want), ch, |w.lanes[ch].sent|, k) ==>
      WillRead(Submitted(w, ch, r, want), ch, |w.lanes[ch].sent|, k, want[k].value)
    ensures ReadsHeld(Submitted(w, ch, r, want).(spec := spec'))
  {
    var w1 := Submitted(w, ch, r, want);
    var w' := w1.(spec := spec');
    forall dh, t, k | Wants(w', dh, t, k) ensures WillRead(w', dh, t, k, w'.lanes[dh].want[t][k].value) {
      assert Wants(w1, dh, t, k);
      if dh != ch || t != |w.lanes[ch].sent| {
        assert Wants(w, dh, t, k);
        SubmitKeepsReads(w, ch, r, want, dh, t, k);
      }
      assert WillRead(w1, dh, t, k, w'.lanes[dh].want[t][k].value);
    }
  }

  /** Issuing a write: the specification changes at once, and the drives are going to agree with it. */
  lemma WriteKeeps(w: Core, ch: Chan, r: Req, f: nat, off: nat)
    requires Inv(w) && GoodLayout(w) && Unshared(w.fs) && Writable(w, ch, r, f, off)
    ensures Inv(Submitted(w, ch, r, []).(spec := SpecAfter(w.spec, f, off, r.data)))
  {
    SubmitLanes(w, ch, r, []);
    ChunkApart(w, ch, r, f, off);
    WriteKeepsSpec(w, ch, r, f, off);
    SubmitKeepsAllReads(w, ch, r, [], SpecAfter(w.spec, f, off, r.data));
    RaceFreeIgnoresSpec(Submitted(w, ch, r, []), SpecAfter(w.spec, f, off, r.data));
  }

  lemma RaceFreeIgnoresSpec(w: Core, spec': (nat, nat) -> Option<Byte>)
    requires Lanes(w) && RaceFree(w)
    ensures Lanes(w.(spec := spec')) && RaceFree(w.(spec := spec'))
  {
  }

  lemma OthersDoNotWrite(w: Core, ch: Chan, r: Req, dh: Chan, b: nat)
    requires Lanes(w) && IsChan(w, ch) && IsChan(w, dh) && dh.d == ch.d && dh.c != ch.c
    requires NoRace(w, ch, r) && Covers(r, b)
    ensures PendingWrite(w, dh, b) == None
  {
    if PendingWrite(w, dh, b).Some? {
      var i := LastWriteWitness(Pending(w.lanes[dh]), b);
      assert NoConflicts([r], Pending(w.lanes[dh]));
      assert Conflict([r][0], Pending(w.lanes[dh])[i]);
    }
  }

  function Entitled(spec: (nat, nat) -> Option<Byte>, f: nat, off: nat, len: nat): seq<Option<Byte>> {
    seq(len, k requires 0 <= k => spec(f, off + k))
  }

  ghost predicate Readable(w: Core, ch: Chan, r: Req, f: nat, off: nat) {
    Lanes(w) && IsChan(w, ch) && Whole(r) && !r.write && IsChunk(w, ch, r, f, off) && NoRace(w, ch, r)
  }

  /** A new read is going to see the byte that settles at its place. */
  lemma NewReadHeld(w: Core, ch: Chan, r: Req, want: seq<Option<Byte>>, k: nat, v: Byte)
    requires Lanes(w) && IsChan(w, ch) && Submittable(r, want) && !r.write && NoRace(w, ch, r) && k < r.nblk * SECTOR
    requires Settles(w, Place(ch.d, r.slba * SECTOR + k), v) && Lanes(Submitted(w, ch, r, want))
    ensures WillRead(Submitted(w, ch, r, want), ch, |w.lanes[ch].sent|, k, v)
  {
    var w', l, t := Submitted(w, ch, r, want), w.lanes[ch], |w.lanes[ch].sent|;
    var b := r.slba * SECTOR + k;
    assert w'.lanes[ch].sent[|l.io|..t] == Pending(l);
    assert ch == Chan(ch.d, ch.c) && PendingWrite(w, ch, b) in {None, Some(v)};
    if PendingWrite(w, ch, b) == None {
      forall c | 0 <= c < w.nc ensures PendingWrite(w, Chan(ch.d, c), b) == None {
        if c != ch.c {
          OthersDoNotWrite(w, ch, r, Chan(ch.d, c), b);
        }
      }
    }
  }

  lemma ReadKeepsSpec(w: Core, ch: Chan, r: Req, want: seq<Option<Byte>>)
    requires Lanes(w) && IsChan(w, ch) && Submittable(r, want) && !r.write && Lanes(Submitted(w, ch, r, want))
      && SpecHeld(w)
    ensures SpecHeld(Submitted(w, ch, r, want))
  {
    var w' := Submitted(w, ch, r, want);
    forall g: nat, o: nat | w'.spec(g, o).Some?
      ensures Has(w'.fs, g, o) && Settles(w', Home(w', g, o), w'.spec(g, o).value)
    {
      assert w.spec(g, o).Some?;
      OtherByteSettles(w, ch, r, want, Home(w, g, o), w.spec(g, o).value);
    }
  }

  /** Every byte r's caller is entitled to is the one that settles at its place. */
  ghost predicate EntitledSettles(w: Core, ch: Chan, r: Req, want: seq<Option<Byte>>)
    requires Lanes(w)
  {
    forall k :: 0 <= k < |want| && want[k].Some? ==> Settles(w, Place(ch.d, r.slba * SECTOR + k), want[k].value)
  }

  lemma ChunkSettles(w: Core, ch: Chan, r: Req, f: nat, off: nat)
    requires Lanes(w) && IsChunk(w, ch, r, f, off) && SpecHeld(w) && r.len <= r.nblk * SECTOR
    ensures EntitledSettles(w, ch, r, Entitled(w.spec, f, off, r.len))
  {
    var want := Entitled(w.spec, f, off, r.len);
    forall k | 0 <= k < |want| && want[k].Some? ensures Settles(w, Place(ch.d, r.slba * SECTOR + k), want[k].value) {
      assert w.spec(f, off + k) == want[k];
      assert Home(w, f, off + k) == Place(ch.d, r.slba * SECTOR + k);
    }
  }

  lemma NewReadsHeld(w: Core, ch: Chan, r: Req, want: seq<Option<Byte>>)
    requires Lanes(w) && IsChan(w, ch) && Submittable(r, want) && !r.write && NoRace(w, ch, r)
      && EntitledSettles(w, ch, r, want)
    requires Lanes(Submitted(w, ch, r, want))
    ensures var w' := Submitted(w, ch, r, want);
      forall k :: Wants(w', ch, |w.lanes[ch].sent|, k) ==> WillRead(w', ch, |w.lanes[ch].sent|, k, want[k].value)
  {
    var w' := Submitted(w, ch, r, want);
    forall k | Wants(w', ch, |w.lanes[ch].sent|, k) ensures WillRead(w', ch, |w.lanes[ch].sent|, k, want[k].value) {
      assert Settles(w, Place(ch.d, r.slba * SECTOR + k), want[k].value);
      NewReadHeld(w, ch, r, want, k, want[k].value);
    }
  }

  /** Issuing a read: its caller is entitled to the contents of this moment. */
  lemma ReadKeeps(w: Core, ch: Chan, r: Req, f: nat, off: nat)
    requires Inv(w) && Readable(w, ch, r, f, off)
    ensures Inv(Submitted(w, ch, r, Entitled(w.spec, f, off, r.len)))
  {
    var want := Entitled(w.spec, f, off, r.len);
    SubmitLanes(w, ch, r, want);
    ReadKeepsSpec(w, ch, r, want);
    ChunkSettles(w, ch, r, f, off);
    NewReadsHeld(w, ch, r, want);
    SubmitKeepsAllReads(w, ch, r, want, w.spec);
  }

  // ---------------------------------------------------------------- the drive

  function Put(disk: (nat, nat) -> Byte, d: nat, base: nat, data: seq<Byte>): (nat, nat) -> Byte {
    (e: nat, b: nat) => if e == d && base <= b < base + |data| then data[b - base] else disk(e, b)
  }

  /** The drive of a channel carries out the channel's oldest unfetched request. */
  function Fetched(w: Core, ch: Chan, payload: seq<Byte>): Core
    requires ch in w.lanes && |w.lanes[ch].io| < |w.lanes[ch].sent|
  {
    var l := w.lanes[ch];
    var r := l.sent[|l.io|];
    w.(lanes := w.lanes[ch := l.(io := l.io + [payload])],
       disk := if r.write then Put(w.disk, ch.d, r.slba * SECTOR, payload) else w.disk)
  }

  /** A write carries its caller's bytes and a read returns what the drive holds. */
  predicate Honest(w: Core, ch: Chan, payload: seq<Byte>)
    requires ch in w.lanes && |w.lanes[ch].io| < |w.lanes[ch].sent|
  {
    var r := w.lanes[ch].sent[|w.lanes[ch].io|];
    && |payload| == r.nblk * SECTOR
    && (if r.write then payload == r.data
        else forall k :: 0 <= k < |payload| ==> payload[k] == w.disk(ch.d, r.slba * SECTOR + k))
  }

  ghost predicate CanFetch(w: Core, ch: Chan, payload: seq<Byte>) {
    Lanes(w) && IsChan(w, ch) && |w.lanes[ch].io| < |w.lanes[ch].sent| && Honest(w, ch, payload)
  }

  lemma FetchPending(w: Core, ch: Chan, payload: seq<Byte>, a: Chan)
    requires CanFetch(w, ch, payload) && IsChan(w, a)
    ensures var l := Fetched(w, ch, payload).lanes; a in l && LaneOk(l[a])
    ensures Pending(Fetched(w, ch, payload).lanes[a]) ==
      if a == ch then Pending(w.lanes[a])[1..] else Pending(w.lanes[a])
  {
    assert LaneOk(w.lanes[a]);
  }

  lemma FewerConflicts(rs: seq<Req>, ss: seq<Req>, rs': seq<Req>, ss': seq<Req>)
    requires NoConflicts(rs, ss)
    requires (rs' == rs || (rs != [] && rs' == rs[1..])) && (ss' == ss || (ss != [] && ss' == ss[1..]))
    ensures NoConflicts(rs', ss')
  {
  }

  lemma FetchLanes(w: Core, ch: Chan, payload: seq<Byte>)
    requires CanFetch(w, ch, payload) && RaceFree(w)
    ensures Lanes(Fetched(w, ch, payload)) && RaceFree(Fetched(w, ch, payload))
    ensures Pending(Fetched(w, ch, payload).lanes[ch]) == Pending(w.lanes[ch])[1..]
  {
    var w' := Fetched(w, ch, payload);
    forall a | IsChan(w', a) ensures a in w'.lanes && LaneOk(w'.lanes[a]) {
      FetchPending(w, ch, payload, a);
    }
    FetchPending(w, ch, payload, ch);
    forall a, b | IsChan(w', a) && IsChan(w', b) && a.d == b.d && a.c != b.c
      ensures NoConflicts(Pending(w'.lanes[a]), Pending(w'.lanes[b]))
    {
      FetchPending(w, ch, payload, a);
      FetchPending(w, ch, payload, b);
      FewerConflicts(Pending(w.lanes[a]), Pending(w.lanes[b]), Pending(w'.lanes[a]), Pending(w'.lanes[b]));
    }
  }

  /** The byte the first of the writes leaves, unless a later one covers it. */
  lemma LastWriteHead(rs: seq<Req>, b: nat)
    requires rs != [] && Whole(rs[0])
    ensures LastWrite(rs, b) ==
      if LastWrite(rs[1..], b).Some? then LastWrite(rs[1..], b)
      else if rs[0].write && Covers(rs[0], b) then Some(rs[0].data[b - rs[0].slba * SECTOR])
      else None
  {
    LastWriteFirst(rs, b);
    OneWrite(rs[..1], b);
  }

  lemma OneWrite(rs: seq<Req>, b: nat)
    requires |rs| == 1 && Whole(rs[0])
    ensures LastWrite(rs, b) ==
      if rs[0].write && Covers(rs[0], b) then Some(rs[0].data[b - rs[0].slba * SECTOR]) else None
  {
    assert rs[..0] == [];
    assert LastWrite(rs[..0], b) == None;
  }

  /** What a fetch leaves on the drive. */
  lemma FetchDisk(w: Core, ch: Chan, payload: seq<Byte>, d: nat, b: nat)
    requires CanFetch(w, ch, payload)
    ensures var w', r := Fetched(w, ch, payload), w.lanes[ch].sent[|w.lanes[ch].io|];
      Whole(r) && w'.disk(d, b) ==
        if d == ch.d && r.write && Covers(r, b) then r.data[b - r.slba * SECTOR] else w.disk(d, b)
  {
    assert LaneOk(w.lanes[ch]);
  }

  lemma HeadPending(l: Lane, l': Lane, b: nat)
    requires LaneOk(l) && |l.io| < |l.sent| && Pending(l') == Pending(l)[1..]
    ensures var r, later := l.sent[|l.io|], LastWrite(Pending(l'), b);
      Whole(r) && LastWrite(Pending(l), b) ==
        if later.Some? then later
        else if r.write && Covers(r, b) then Some(r.data[b - r.slba * SECTOR]) else None
  {
    assert Pending(l)[0] == l.sent[|l.io|];
    LastWriteHead(Pending(l), b);
  }

  lemma FetchOwnPending(w: Core, ch: Chan, payload: seq<Byte>, b: nat)
    requires CanFetch(w, ch, payload)
    requires Pending(Fetched(w, ch, payload).lanes[ch]) == Pending(w.lanes[ch])[1..]
    ensures var w', r := Fetched(w, ch, payload), w.lanes[ch].sent[|w.lanes[ch].io|];
      Whole(r) && PendingWrite(w, ch, b) ==
        if PendingWrite(w', ch, b).Some? then PendingWrite(w', ch, b)
        else if r.write && Covers(r, b) then Some(r.data[b - r.slba * SECTOR]) else None
  {
    HeadPending(w.lanes[ch], Fetched(w, ch, payload).lanes[ch], b);
  }

  /** What a fetch does to the pending bytes of its own channel and to the drive. */
  lemma FetchEffect(w: Core, ch: Chan, payload: seq<Byte>, d: nat, b: nat)
    requires CanFetch(w, ch, payload) && Lanes(Fetched(w, ch, payload))
    requires Pending(Fetched(w, ch, payload).lanes[ch]) == Pending(w.lanes[ch])[1..]
    ensures var w', r := Fetched(w, ch, payload), w.lanes[ch].sent[|w.lanes[ch].io|];
      && (if d == ch.d && r.write && Covers(r, b)
          then PendingWrite(w, ch, b) ==
            (if PendingWrite(w', ch, b).Some? then PendingWrite(w', ch, b) else Some(w'.disk(d, b)))
          else w'.disk(d, b) == w.disk(d, b) && (d == ch.d ==> PendingWrite(w, ch, b) == PendingWrite(w', ch, b)))
  {
    FetchDisk(w, ch, payload, d, b);
    FetchOwnPending(w, ch, payload, b);
  }

  lemma FetchOthersPending(w: Core, ch: Chan, payload: seq<Byte>, dh: Chan, b: nat)
    requires CanFetch(w, ch, payload) && IsChan(w, dh) && dh != ch
    ensures dh in Fetched(w, ch, payload).lanes
      && PendingWrite(Fetched(w, ch, payload), dh, b) == PendingWrite(w, dh, b)
  {
  }

  lemma FetchSettlesThere(w: Core, ch: Chan, payload: seq<Byte>, p: Place, v: Byte)
    requires CanFetch(w, ch, payload) && Lanes(Fetched(w, ch, payload)) && Settles(w, p, v) && p.d != ch.d
    ensures Settles(Fetched(w, ch, payload), p, v)
  {
    var w' := Fetched(w, ch, payload);
    FetchDisk(w, ch, payload, p.d, p.b);
    forall c | 0 <= c < w.nc ensures PendingWrite(w', Chan(p.d, c), p.b) == PendingWrite(w, Chan(p.d, c), p.b) {
      FetchOthersPending(w, ch, payload, Chan(p.d, c), p.b);
    }
  }

  /** Byte b of a drive settles as before if its newest write moved from one channel to the drive or nothing did. */
  lemma SettlesOn(w: Core, w': Core, ch: Chan, b: nat, v: Byte)
    requires Lanes(w) && Lanes(w') && w'.nd == w.nd && w'.nc == w.nc && IsChan(w, ch)
    requires Settles(w, Place(ch.d, b), v)
    requires forall c :: 0 <= c < w.nc && c != ch.c ==>
      PendingWrite(w', Chan(ch.d, c), b) == PendingWrite(w, Chan(ch.d, c), b)
    requires
      || PendingWrite(w, ch, b) ==
        (if PendingWrite(w', ch, b).Some? then PendingWrite(w', ch, b) else Some(w'.disk(ch.d, b)))
      || (w'.disk(ch.d, b) == w.disk(ch.d, b) && PendingWrite(w, ch, b) == PendingWrite(w', ch, b))
    ensures Settles(w', Place(ch.d, b), v)
  {
    assert ch == Chan(ch.d, ch.c) && PendingWrite(w, ch, b) in {None, Some(v)};
    assert PendingWrite(w', ch, b) in {None, Some(v)};
  }

  lemma FetchSettlesHere(w: Core, ch: Chan, payload: seq<Byte>, b: nat, v: Byte)
    requires CanFetch(w, ch, payload) && Lanes(Fetched(w, ch, payload)) && Settles(w, Place(ch.d, b), v)
    requires Pending(Fetched(w, ch, payload).lanes[ch]) == Pending(w.lanes[ch])[1..]
    ensures Settles(Fetched(w, ch, payload), Place(ch.d, b), v)
  {
    var w' := Fetched(w, ch, payload);
    FetchEffect(w, ch, payload, ch.d, b);
    forall c | 0 <= c < w.nc && c != ch.c
      ensures PendingWrite(w', Chan(ch.d, c), b) == PendingWrite(w, Chan(ch.d, c), b)
    {
      FetchOthersPending(w, ch, payload, Chan(ch.d, c), b);
    }
    SettlesOn(w, w', ch, b, v);
  }

  lemma FetchSettles(w: Core, ch: Chan, payload: seq<Byte>, p: Place, v: Byte)
    requires CanFetch(w, ch, payload) && Lanes(Fetched(w, ch, payload)) && Settles(w, p, v)
    requires Pending(Fetched(w, ch, payload).lanes[ch]) == Pending(w.lanes[ch])[1..]
    ensures Settles(Fetched(w, ch, payload), p, v)
  {
    if p.d == ch.d {
      assert p == Place(ch.d, p.b);
      FetchSettlesHere(w, ch, payload, p.b, v);
    } else {
      FetchSettlesThere(w, ch, payload, p, v);
    }
  }

  lemma FetchKeepsSpec(w: Core, ch: Chan, payload: seq<Byte>)
    requires CanFetch(w, ch, payload) && Lanes(Fetched(w, ch, payload)) && SpecHeld(w)
    requires Pending(Fetched(w, ch, payload).lanes[ch]) == Pending(w.lanes[ch])[1..]
    ensures SpecHeld(Fetched(w, ch, payload))
  {
    var w' := Fetched(w, ch, payload);
    forall g: nat, o: nat | w'.spec(g, o).Some?
      ensures Has(w'.fs, g, o) && Settles(w', Home(w', g, o), w'.spec(g, o).value)
    {
      assert w.spec(g, o).Some?;
      FetchSettles(w, ch, payload, Home(w, g, o), w.spec(g, o).value);
    }
  }

  /** A read of the same channel behind the fetched request still gets its byte. */
  lemma FetchKeepsLaterRead(w: Core, ch: Chan, payload: seq<Byte>, t: nat, k: nat, v: Byte)
    requires CanFetch(w, ch, payload) && Lanes(Fetched(w, ch, payload))
    requires |w.lanes[ch].io| < t < |w.lanes[ch].sent| && k < w.lanes[ch].sent[t].nblk * SECTOR
    requires WillRead(w, ch, t, k, v)
    ensures WillRead(Fetched(w, ch, payload), ch, t, k, v)
  {
    var l := w.lanes[ch];
    var b := l.sent[t].slba * SECTOR + k;
    var p := l.sent[|l.io|..t];
    assert LaneOk(l) && p[0] == l.sent[|l.io|];
    FetchDisk(w, ch, payload, ch.d, b);
    LastWriteHead(p, b);
    assert p[1..] == l.sent[|l.io| + 1..t];
  }

  /** The fetched request, if it is a read, gets its byte. */
  lemma FetchServesRead(w: Core, ch: Chan, payload: seq<Byte>, k: nat, v: Byte)
    requires CanFetch(w, ch, payload) && Lanes(Fetched(w, ch, payload))
    requires var r := w.lanes[ch].sent[|w.lanes[ch].io|]; !r.write && k < r.nblk * SECTOR
    requires WillRead(w, ch, |w.lanes[ch].io|, k, v)
    ensures WillRead(Fetched(w, ch, payload), ch, |w.lanes[ch].io|, k, v)
  {
    var l := w.lanes[ch];
    assert l.sent[|l.io|..|l.io|] == [];
  }

  /** A read of another core is not overtaken by a write, since they do not overlap. */
  lemma FetchKeepsOtherRead(w: Core, ch: Chan, payload: seq<Byte>, dh: Chan, t: nat, k: nat, v: Byte)
    requires CanFetch(w, ch, payload) && Lanes(Fetched(w, ch, payload)) && RaceFree(w) && IsChan(w, dh) && dh != ch
    requires |w.lanes[dh].io| <= t < |w.lanes[dh].sent| && k < w.lanes[dh].sent[t].nblk * SECTOR
    requires WillRead(w, dh, t, k, v)
    ensures WillRead(Fetched(w, ch, payload), dh, t, k, v)
  {
    var r, s := w.lanes[ch].sent[|w.lanes[ch].io|], w.lanes[dh].sent[t];
    if dh.d == ch.d {
      assert NoConflicts(Pending(w.lanes[ch]), Pending(w.lanes[dh]));
      assert Pending(w.lanes[ch])[0] == r && Pending(w.lanes[dh])[t - |w.lanes[dh].io|] == s;
    }
  }

  lemma FetchKeepsReads(w: Core, ch: Chan, payload: seq<Byte>)
    requires CanFetch(w, ch, payload) && Lanes(Fetched(w, ch, payload)) && RaceFree(w) && ReadsHeld(w)
    ensures ReadsHeld(Fetched(w, ch, payload))
  {
    var w' := Fetched(w, ch, payload);
    forall dh, t, k | Wants(w', dh, t, k) ensures WillRead(w', dh, t, k, w'.lanes[dh].want[t][k].value) {
      assert Wants(w, dh, t, k);
      var v := w.lanes[dh].want[t][k].value;
      assert WillRead(w, dh, t, k, v);
      if |w.lanes[dh].io| <= t {
        if dh == ch && t == |w.lanes[ch].io| {
          FetchServesRead(w, ch, payload, k, v);
        } else if dh == ch {
          FetchKeepsLaterRead(w, ch, payload, t, k, v);
        } else {
          FetchKeepsOtherRead(w, ch, payload, dh, t, k, v);
        }
      }
    }
  }

  /** Carrying out a request keeps the drives and the reads under way in step with the specification. */
  lemma FetchKeeps(w: Core, ch: Chan, payload: seq<Byte>)
    requires Inv(w) && CanFetch(w, ch, payload)
    ensures Inv(Fetched(w, ch, payload))
  {
    FetchLanes(w, ch, payload);
    FetchKeepsSpec(w, ch, payload);
    FetchKeepsReads(w, ch, payload);
  }
}
