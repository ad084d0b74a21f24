/**
 The unit-to-thread hash table of argobots/src/unit.c.  A bucket is a list that only ever grows
 at its head; unmapping leaves a tombstone that a later map fills again.  Maps and unmaps of a
 bucket exclude each other by its lock, lookups take no lock.

 Nodes are numbered from the tail of their list, so that a number keeps meaning the same node
 when the list grows: the head is the last node and p_next of node k is node k-1.
*/
module UnitMap {
  import opened Arithmetic
  import opened Counting
  import opened Prelude

  const NULL_UNIT := 0
  const SIZE := 256

  /** unit_get_hash_index with ABTI_UNIT_HASH_TABLE_SIZE_EXP equal to 8. */
  function Hash(unit: nat): (h: nat)
    ensures h < SIZE
  {
    (unit / 8 + unit / 2048 + unit / 524288) % SIZE
  }

  datatype Node = Node(unit: nat, thread: nat)

  /** A map that has stored the unit into a tombstone and is about to store the thread. */
  datatype Fill = Fill(k: nat, unit: nat, thread: nat)

  datatype Bucket = Bucket(nodes: seq<Node>, filling: Option<Fill>)

  datatype Reader = Resting | At(unit: nat, k: int) | Found(unit: nat, thread: nat)

  /** `hash` may be any hash; `mapped` is the plain map the table stands for, `index` the node of each mapped unit. */
  datatype Table = Table(hash: nat -> nat, buckets: seq<Bucket>, readers: seq<Reader>, mapped: map<nat, nat>,
    index: map<nat, nat>)

  datatype Event =
    | Reuse(unit: nat, thread: nat, k: nat)  // map: store the unit into the first tombstone
    | Complete(unit: nat)                    // map: store the thread
    | Prepend(unit: nat, thread: nat)        // map: no tombstone, publish a new node
    | Unmap(unit: nat, k: nat)               // store NULL into the node found
    | Begin(r: nat, unit: nat)               // lookup: load the list head
    | Walk(r: nat)                           // lookup: compare one node

  function Init(hash: nat -> nat, readers: nat): Table {
    Table(hash, seq(SIZE, _ => Bucket([], None)), seq(readers, _ => Resting), map[], map[])
  }

  predicate Used(n: Node) { n.unit != NULL_UNIT }

  /** Hash values are bucket numbers. */
  ghost predicate Hashed(t: Table) {
    |t.buckets| == SIZE && forall u: nat :: t.hash(u) < SIZE
  }

  ghost function BucketOf(t: Table, unit: nat): Bucket
    requires Hashed(t)
  {
    t.buckets[t.hash(unit)]
  }

  /** The first node from the head, at or below k, that satisfies p. */
  predicate FirstFrom(nodes: seq<Node>, k: int, p: Node -> bool) {
    0 <= k < |nodes| && p(nodes[k]) && forall i :: k < i < |nodes| ==> !p(nodes[i])
  }

  function Holds(unit: nat): Node -> bool { (n: Node) => n.unit == unit }

  /**
   Callers map a unit that is not mapped, unmap and look up only mapped units, and do not unmap
   a unit while it is being looked up.
  */
  ghost predicate Enabled(t: Table, e: Event) {
    && Hashed(t)
    && match e
       case Reuse(u, th, k) =>
         u != NULL_UNIT && u !in t.mapped && BucketOf(t, u).filling == None
           && FirstFrom(BucketOf(t, u).nodes, k, Holds(NULL_UNIT))
       case Complete(u) =>
         var f := BucketOf(t, u).filling; f.Some? && f.value.unit == u && f.value.k < |BucketOf(t, u).nodes|
       case Prepend(u, th) =>
         u != NULL_UNIT && u !in t.mapped && BucketOf(t, u).filling == None
         && forall k :: 0 <= k < |BucketOf(t, u).nodes| ==> Used(BucketOf(t, u).nodes[k])
       case Unmap(u, k) =>
         u in t.mapped && BucketOf(t, u).filling == None && FirstFrom(BucketOf(t, u).nodes, k, Holds(u))
         && forall r :: 0 <= r < |t.readers| && t.readers[r].At? ==> t.readers[r].unit != u
       case Begin(r, u) => r < |t.readers| && !t.readers[r].At? && u in t.mapped
       case Walk(r) =>
         && r < |t.readers| && t.readers[r].At?
         && 0 <= t.readers[r].k < |BucketOf(t, t.readers[r].unit).nodes|
  }

  ghost function SetBucket(t: Table, u: nat, b: Bucket): Table
    requires Hashed(t)
  {
    t.(buckets := t.buckets[t.hash(u) := b])
  }

  ghost function Step(t: Table, e: Event): Table
    requires Enabled(t, e)
  {
    match e
    case Reuse(u, th, k) =>
      var b := BucketOf(t, u);
      SetBucket(t, u, b.(nodes := b.nodes[k := b.nodes[k].(unit := u)], filling := Some(Fill(k, u, th))))
    case Complete(u) =>
      var b := BucketOf(t, u);
      var f := b.filling.value;
      SetBucket(t, u, b.(nodes := b.nodes[f.k := b.nodes[f.k].(thread := f.thread)], filling := None))
        .(mapped := t.mapped[u := f.thread], index := t.index[u := f.k])
    case Prepend(u, th) =>
      var b := BucketOf(t, u);
      SetBucket(t, u, b.(nodes := b.nodes + [Node(u, th)]))
        .(mapped := t.mapped[u := th], index := t.index[u := |b.nodes|])
    case Unmap(u, k) =>
      var b := BucketOf(t, u);
      SetBucket(t, u, b.(nodes := b.nodes[k := b.nodes[k].(unit := NULL_UNIT)]))
        .(mapped := t.mapped - {u}, index := t.index - {u})
    case Begin(r, u) => t.(readers := t.readers[r := At(u, |BucketOf(t, u).nodes| - 1)])
    case Walk(r) =>
      var u, k := t.readers[r].unit, t.readers[r].k;
      var n := BucketOf(t, u).nodes[k];
      t.(readers := t.readers[r := if n.unit == u then Found(u, n.thread) else At(u, k - 1)])
  }

  // ---------------------------------------------------------------- the invariant

  ghost predicate InNode(t: Table, u: nat)
    requires Hashed(t) && u in t.mapped
  {
    u in t.index && t.index[u] < |BucketOf(t, u).nodes| && BucketOf(t, u).nodes[t.index[u]] == Node(u, t.mapped[u])
  }

  /** Every mapped unit sits, with its thread, in the node the index names. */
  ghost predicate Mapped(t: Table) {
    && Hashed(t)
    && NULL_UNIT !in t.mapped
    && forall u :: u in t.mapped ==> InNode(t, u)
  }

  /** A node in use belongs to a mapped unit of its bucket or to the map under way there. */
  predicate NodeOk(t: Table, b: nat, k: nat)
    requires b < |t.buckets| && k < |t.buckets[b].nodes|
  {
    var n := t.buckets[b].nodes[k];
    Used(n) ==>
      && t.hash(n.unit) == b
      && if n.unit in t.mapped then n.unit in t.index && t.index[n.unit] == k
         else var f := t.buckets[b].filling; f.Some? && f.value.k == k && f.value.unit == n.unit
  }

  predicate FillOk(t: Table, b: nat)
    requires b < |t.buckets|
  {
    match t.buckets[b].filling
    case Some(f) => f.k < |t.buckets[b].nodes| && t.buckets[b].nodes[f.k].unit == f.unit && f.unit != NULL_UNIT
                    && f.unit !in t.mapped && t.hash(f.unit) == b
    case None => true
  }

  predicate FillsOk(t: Table) {
    forall b :: 0 <= b < |t.buckets| ==> FillOk(t, b)
  }

  predicate NodesOk(t: Table) {
    forall b, k :: 0 <= b < |t.buckets| && 0 <= k < |t.buckets[b].nodes| ==> NodeOk(t, b, k)
  }

  /** A lookup under way has not passed the node of its unit. */
  ghost predicate ReadersOk(t: Table)
    requires Hashed(t)
  {
    forall r :: 0 <= r < |t.readers| && t.readers[r].At? ==>
      var u := t.readers[r].unit;
      u in t.mapped && u in t.index && t.index[u] <= t.readers[r].k < |BucketOf(t, u).nodes|
  }

  ghost predicate Inv(t: Table) { Mapped(t) && FillsOk(t) && NodesOk(t) && ReadersOk(t) }

  lemma InitInv(hash: nat -> nat, readers: nat)
    requires forall u: nat :: hash(u) < SIZE
    ensures Inv(Init(hash, readers))
  {
  }

  lemma ReuseKeeps(t: Table, u: nat, th: nat, k: nat)
    requires Inv(t) && Enabled(t, Reuse(u, th, k))
    ensures Inv(Step(t, Reuse(u, th, k)))
  {
    var t' := Step(t, Reuse(u, th, k));
    forall v | v in t'.mapped ensures InNode(t', v) {
      assert InNode(t, v);
    }
    forall c, i | 0 <= c < |t'.buckets| && 0 <= i < |t'.buckets[c].nodes| ensures NodeOk(t', c, i) {
      assert NodeOk(t, c, i);
    }
    forall c | 0 <= c < |t'.buckets| ensures FillOk(t', c) {
      assert FillOk(t, c);
    }
  }

  lemma CompleteKeeps(t: Table, u: nat)
    requires Inv(t) && Enabled(t, Complete(u))
    ensures Inv(Step(t, Complete(u)))
  {
    var t' := Step(t, Complete(u));
    assert FillOk(t, t.hash(u));
    forall v | v in t'.mapped ensures InNode(t', v) {
      assert v in t.mapped ==> InNode(t, v);
    }
    forall c, i | 0 <= c < |t'.buckets| && 0 <= i < |t'.buckets[c].nodes| ensures NodeOk(t', c, i) {
      assert NodeOk(t, c, i);
    }
    forall c | 0 <= c < |t'.buckets| ensures FillOk(t', c) {
      assert FillOk(t, c);
    }
  }

  lemma PrependKeeps(t: Table, u: nat, th: nat)
    requires Inv(t) && Enabled(t, Prepend(u, th))
    ensures Inv(Step(t, Prepend(u, th)))
  {
    var b, t' := BucketOf(t, u), Step(t, Prepend(u, th));
    forall v | v in t'.mapped ensures InNode(t', v) {
      assert v in t.mapped ==> InNode(t, v);
    }
    forall c, i | 0 <= c < |t'.buckets| && 0 <= i < |t'.buckets[c].nodes| ensures NodeOk(t', c, i) {
      assert i < |t.buckets[c].nodes| ==> NodeOk(t, c, i);
    }
    forall c | 0 <= c < |t'.buckets| ensures FillOk(t', c) {
      assert FillOk(t, c);
    }
  }

  lemma UnmapKeeps(t: Table, u: nat, k: nat)
    requires Inv(t) && Enabled(t, Unmap(u, k))
    ensures Inv(Step(t, Unmap(u, k)))
  {
    var t' := Step(t, Unmap(u, k));
    assert NodeOk(t, t.hash(u), k) && InNode(t, u);
    forall v | v in t'.mapped ensures InNode(t', v) {
      assert InNode(t, v);
    }
    forall c, i | 0 <= c < |t'.buckets| && 0 <= i < |t'.buckets[c].nodes| ensures NodeOk(t', c, i) {
      assert NodeOk(t, c, i);
    }
    forall c | 0 <= c < |t'.buckets| ensures FillOk(t', c) {
      assert FillOk(t, c);
    }
  }

  /** A lookup step compares a node that exists: the assertion on p_cur holds. */
  lemma WalkKeeps(t: Table, r: nat)
    requires Inv(t) && Enabled(t, Walk(r))
    ensures Inv(Step(t, Walk(r)))
  {
    var u, t' := t.readers[r].unit, Step(t, Walk(r));
    assert InNode(t, u);
    forall v | v in t'.mapped ensures InNode(t', v) {
      assert InNode(t, v);
    }
    forall c, i | 0 <= c < |t'.buckets| && 0 <= i < |t'.buckets[c].nodes| ensures NodeOk(t', c, i) {
      assert NodeOk(t, c, i);
    }
    forall c | 0 <= c < |t'.buckets| ensures FillOk(t', c) {
      assert FillOk(t, c);
    }
  }

  lemma BeginKeeps(t: Table, r: nat, u: nat)
    requires Inv(t) && Enabled(t, Begin(r, u))
    ensures Inv(Step(t, Begin(r, u)))
  {
    var t' := Step(t, Begin(r, u));
    assert InNode(t, u);
    forall v | v in t'.mapped ensures InNode(t', v) {
      assert InNode(t, v);
    }
    forall c, i | 0 <= c < |t'.buckets| && 0 <= i < |t'.buckets[c].nodes| ensures NodeOk(t', c, i) {
      assert NodeOk(t, c, i);
    }
    forall c | 0 <= c < |t'.buckets| ensures FillOk(t', c) {
      assert FillOk(t, c);
    }
  }

  lemma StepKeeps(t: Table, e: Event)
    requires Inv(t) && Enabled(t, e)
    ensures Inv(Step(t, e))
  {
    match e
    case Reuse(u, th, k) => ReuseKeeps(t, u, th, k);
    case Complete(u) => CompleteKeeps(t, u);
    case Prepend(u, th) => PrependKeeps(t, u, th);
    case Unmap(u, k) => UnmapKeeps(t, u, k);
    case Begin(r, u) => BeginKeeps(t, r, u);
    case Walk(r) => WalkKeeps(t, r);
  }

  // ---------------------------------------------------------------- runs and main results

  ghost predicate Runs(t: Table, es: seq<Event>, t': Table)
    decreases |es|
  {
    if es == [] then t' == t
    else Enabled(t, es[0]) && Runs(Step(t, es[0]), es[1..], t')
  }

  lemma {:induction false} RunKeeps(t: Table, es: seq<Event>, t': Table)
    requires Inv(t) && Runs(t, es, t')
    ensures Inv(t')
    decreases |es|
  {
    if es != [] {
      StepKeeps(t, es[0]);
      RunKeeps(Step(t, es[0]), es[1..], t');
    }
  }

  // ---------------------------------------------------------------- the map the calls make

  /** The pairs mapped, and the thread each unit was last stored for into a tombstone. */
  datatype Plain = Plain(pairs: map<nat, nat>, begun: map<nat, nat>)

  /** What an event means for callers: a map is made by publishing a node, or by completing a reused one. */
  function PlainAfter(p: Plain, e: Event): Plain {
    match e
    case Reuse(u, th, _) => p.(begun := p.begun[u := th])
    case Complete(u) => if u in p.begun then p.(pairs := p.pairs[u := p.begun[u]]) else p
    case Prepend(u, th) => p.(pairs := p.pairs[u := th])
    case Unmap(u, _) => p.(pairs := p.pairs - {u})
    case _ => p
  }

  function PlainBy(p: Plain, es: seq<Event>): Plain
    decreases |es|
  {
    if es == [] then p else PlainBy(PlainAfter(p, es[0]), es[1..])
  }

  /** The map that the events alone determine. */
  function MappedBy(es: seq<Event>): map<nat, nat> {
    PlainBy(Plain(map[], map[]), es).pairs
  }

  /** The map under way in bucket b, if there is one, is for the thread its caller named. */
  predicate FillMeans(t: Table, p: Plain, b: nat)
    requires b < |t.buckets|
  {
    match t.buckets[b].filling
    case Some(f) => f.unit in p.begun && p.begun[f.unit] == f.thread
    case None => true
  }

  predicate Means(t: Table, p: Plain) {
    t.mapped == p.pairs && forall b :: 0 <= b < |t.buckets| ==> FillMeans(t, p, b)
  }

  lemma StepMeans(t: Table, p: Plain, e: Event)
    requires FillsOk(t) && Means(t, p) && Enabled(t, e)
    ensures Means(Step(t, e), PlainAfter(p, e))
  {
    var t', p' := Step(t, e), PlainAfter(p, e);
    if e.Complete? {
      assert FillMeans(t, p, t.hash(e.unit));
    }
    forall b | 0 <= b < |t'.buckets| ensures FillMeans(t', p', b) {
      assert FillMeans(t, p, b) && FillOk(t, b);
    }
  }

  lemma {:induction false} RunMeans(t: Table, p: Plain, es: seq<Event>, t': Table)
    requires Inv(t) && Means(t, p) && Runs(t, es, t')
    ensures Means(t', PlainBy(p, es))
    decreases |es|
  {
    if es != [] {
      StepKeeps(t, es[0]);
      StepMeans(t, p, es[0]);
      RunMeans(Step(t, es[0]), PlainAfter(p, es[0]), es[1..], t');
    }
  }

  /** The plain map kept with the table is the one the calls make. */
  lemma MappedIsMappedBy(hash: nat -> nat, readers: nat, es: seq<Event>, t: Table)
    requires (forall u: nat :: hash(u) < SIZE) && Runs(Init(hash, readers), es, t)
    ensures t.mapped == MappedBy(es)
  {
    InitInv(hash, readers);
    RunMeans(Init(hash, readers), Plain(map[], map[]), es, t);
  }

  // ---------------------------------------------------------------- lookups

  /** Nodes a lookup of reader r still has to compare before it reaches its unit. */
  function Distance(t: Table, r: nat): int
    requires r < |t.readers| && t.readers[r].At? && t.readers[r].unit in t.index
  {
    t.readers[r].k - t.index[t.readers[r].unit]
  }

  /** Reader r looks for unit u, which is mapped to th, and has d nodes to pass before it. */
  ghost predicate Seeks(t: Table, r: nat, u: nat, th: nat, d: int) {
    && r < |t.readers| && t.readers[r].At? && t.readers[r].unit == u
    && u in t.mapped && t.mapped[u] == th && u in t.index && Distance(t, r) == d
  }

  /** A lookup can always take its next step, which finds the thread or comes one node closer to it. */
  lemma WalkAdvances(t: Table, r: nat, u: nat, th: nat, d: int)
    requires Mapped(t) && NodesOk(t) && ReadersOk(t) && Seeks(t, r, u, th, d)
    ensures 0 <= d && Enabled(t, Walk(r))
    ensures var t' := Step(t, Walk(r)); if d == 0 then t'.readers[r] == Found(u, th) else Seeks(t', r, u, th, d - 1)
  {
    assert InNode(t, u);
    var k := t.readers[r].k;
    assert NodeOk(t, t.hash(u), k);
  }

  /** Steps of others never move it away. */
  lemma OthersKeepSeeking(t: Table, e: Event, r: nat, u: nat, th: nat, d: int)
    requires Mapped(t) && FillsOk(t) && Enabled(t, e) && e != Walk(r) && Seeks(t, r, u, th, d)
    ensures Seeks(Step(t, e), r, u, th, d)
  {
    if e.Complete? {
      assert FillOk(t, t.hash(e.unit));
    }
  }

  function Walks(es: seq<Event>, r: nat): nat {
    if es == [] then 0 else (if es[0] == Walk(r) then 1 else 0) + Walks(es[1..], r)
  }

  predicate BeginsNone(es: seq<Event>, r: nat) {
    forall i :: 0 <= i < |es| ==> !(es[i].Begin? && es[i].r == r)
  }

  lemma {:induction false} RestsFound(t: Table, es: seq<Event>, t': Table, r: nat)
    requires Runs(t, es, t') && BeginsNone(es, r) && r < |t.readers| && t.readers[r].Found?
    ensures r < |t'.readers| && t'.readers[r] == t.readers[r] && Walks(es, r) == 0
    decreases |es|
  {
    if es != [] {
      RestsFound(Step(t, es[0]), es[1..], t', r);
    }
  }

  lemma SeekStep(t: Table, e: Event, r: nat, u: nat, th: nat, d: int)
    requires Inv(t) && Enabled(t, e) && Seeks(t, r, u, th, d)
    ensures 0 <= d && Inv(Step(t, e))
    ensures if e != Walk(r) then Seeks(Step(t, e), r, u, th, d)
      else if d == 0 then Step(t, e).readers[r] == Found(u, th)
      else Seeks(Step(t, e), r, u, th, d - 1)
  {
    StepKeeps(t, e);
    WalkAdvances(t, r, u, th, d);
    if e != Walk(r) {
      OthersKeepSeeking(t, e, r, u, th, d);
    }
  }

  lemma {:induction false} SeekEnds(t: Table, es: seq<Event>, t': Table, r: nat, u: nat, th: nat, d: int)
    requires Inv(t) && Runs(t, es, t') && BeginsNone(es, r) && Seeks(t, r, u, th, d)
    ensures 0 <= d && Walks(es, r) <= d + 1 && r < |t'.readers|
    ensures if Walks(es, r) == d + 1 then t'.readers[r] == Found(u, th) else Seeks(t', r, u, th, d - Walks(es, r))
    decreases |es|
  {
    if es == [] {
      WalkAdvances(t, r, u, th, d);
    } else {
      var t1, rest := Step(t, es[0]), es[1..];
      SeekStep(t, es[0], r, u, th, d);
      if es[0] == Walk(r) && d == 0 {
        RestsFound(t1, rest, t', r);
      } else {
        SeekEnds(t1, rest, t', r, u, th, if es[0] == Walk(r) then d - 1 else d);
      }
    }
  }

  /** The unit reader r last began to look up, going by the events. */
  function AskedFrom(asked: Option<nat>, es: seq<Event>, r: nat): Option<nat>
    decreases |es|
  {
    if es == [] then asked
    else AskedFrom(if es[0].Begin? && es[0].r == r then Some(es[0].unit) else asked, es[1..], r)
  }

  function AskedBy(es: seq<Event>, r: nat): Option<nat> { AskedFrom(None, es, r) }

  predicate Asks(t: Table, r: nat, asked: Option<nat>) {
    r < |t.readers| && (t.readers[r].Resting? || asked == Some(t.readers[r].unit))
  }

  lemma {:induction false} RunAsks(t: Table, es: seq<Event>, t': Table, r: nat, asked: Option<nat>)
    requires Runs(t, es, t') && Asks(t, r, asked)
    ensures Asks(t', r, AskedFrom(asked, es, r))
    decreases |es|
  {
    if es != [] {
      RunAsks(Step(t, es[0]), es[1..], t', r, if es[0].Begin? && es[0].r == r then Some(es[0].unit) else asked);
    }
  }

  lemma {:induction false} ReadersFixed(t: Table, es: seq<Event>, t': Table)
    requires Runs(t, es, t')
    ensures |t'.readers| == |t.readers|
    decreases |es|
  {
    if es != [] {
      ReadersFixed(Step(t, es[0]), es[1..], t');
    }
  }

  /**
   A lookup ends with the unit's thread.  In any run, and after any continuation of it with maps,
   unmaps and lookups of others, reader r has found the thread its unit was mapped to by the calls as
   soon as it has made one step more than the distance it was at, and until then it can always make
   its next step and is as many nodes closer as it has made.
  */
  lemma LookupFindsThread(hash: nat -> nat, readers: nat, es: seq<Event>, t: Table, r: nat, more: seq<Event>, t': Table)
    requires (forall u: nat :: hash(u) < SIZE) && Runs(Init(hash, readers), es, t) && r < |t.readers|
      && t.readers[r].At?
    requires Runs(t, more, t') && BeginsNone(more, r)
    ensures var u, m := t.readers[r].unit, MappedBy(es);
      && AskedBy(es, r) == Some(u) && u in m && u in t.index && r < |t'.readers|
      && 0 <= Distance(t, r) && Walks(more, r) <= Distance(t, r) + 1
      && if Walks(more, r) == Distance(t, r) + 1 then t'.readers[r] == Found(u, m[u])
         else Seeks(t', r, u, m[u], Distance(t, r) - Walks(more, r)) && Enabled(t', Walk(r))
  {
    MappedIsMappedBy(hash, readers, es, t);
    ReadersFixed(Init(hash, readers), es, t);
    RunAsks(Init(hash, readers), es, t, r, None);
    InitInv(hash, readers);
    RunKeeps(Init(hash, readers), es, t);
    var u := t.readers[r].unit;
    var th, d := t.mapped[u], Distance(t, r);
    SeekEnds(t, more, t', r, u, th, d);
    if Walks(more, r) != d + 1 {
      RunKeeps(t, more, t');
      WalkAdvances(t', r, u, th, d - Walks(more, r));
    }
  }

  /** Node k of a bucket holds unit u with thread th, and no map is still filling it. */
  predicate Stores(b: Bucket, k: int, u: nat, th: nat) {
    0 <= k < |b.nodes| && b.nodes[k] == Node(u, th) && (b.filling.Some? ==> b.filling.value.k != k)
  }

  lemma MappedIsStored(t: Table, u: nat)
    requires Inv(t) && u in t.mapped
    ensures u in t.index && Stores(BucketOf(t, u), t.index[u], u, t.mapped[u])
  {
    assert InNode(t, u) && FillOk(t, t.hash(u));
  }

  lemma StoredIsMapped(t: Table, u: nat, th: nat, k: nat)
    requires Inv(t) && u != NULL_UNIT && Stores(BucketOf(t, u), k, u, th)
    ensures u in t.mapped && t.mapped[u] == th
  {
    assert NodeOk(t, t.hash(u), k);
    assert InNode(t, u);
  }

  /**
   The table is the plain map the calls make: a unit is mapped to a thread exactly when its bucket
   stores it, in one node only.
  */
  lemma TableIsMap(hash: nat -> nat, readers: nat, es: seq<Event>, t: Table, u: nat, th: nat)
    requires (forall u: nat :: hash(u) < SIZE) && Runs(Init(hash, readers), es, t) && u != NULL_UNIT
    ensures Hashed(t)
    ensures (u in MappedBy(es) && MappedBy(es)[u] == th) <==> exists k :: Stores(BucketOf(t, u), k, u, th)
    ensures forall i, k :: Stores(BucketOf(t, u), i, u, th) && Stores(BucketOf(t, u), k, u, th) ==> i == k
  {
    MappedIsMappedBy(hash, readers, es, t);
    InitInv(hash, readers);
    RunKeeps(Init(hash, readers), es, t);
    if u in t.mapped {
      MappedIsStored(t, u);
    }
    forall k | Stores(BucketOf(t, u), k, u, th)
      ensures u in t.mapped && t.mapped[u] == th && u in t.index && k == t.index[u]
    {
      StoredIsMapped(t, u, th, k);
      assert NodeOk(t, t.hash(u), k);
    }
  }

  lemma {:induction false} HashFixed(t: Table, es: seq<Event>, t': Table)
    requires Runs(t, es, t')
    ensures t'.hash == t.hash
    decreases |es|
  {
    if es != [] {
      HashFixed(Step(t, es[0]), es[1..], t');
    }
  }

  /** The same of the hash the code uses: the pair is in the bucket unit_get_hash_index names. */
  lemma TableIsMapAtHash(readers: nat, es: seq<Event>, t: Table, u: nat, th: nat)
    requires Runs(Init(Hash, readers), es, t) && u != NULL_UNIT
    ensures |t.buckets| == SIZE
    ensures (u in MappedBy(es) && MappedBy(es)[u] == th) <==> exists k :: Stores(t.buckets[Hash(u)], k, u, th)
  {
    TableIsMap(Hash, readers, es, t, u, th);
    HashFixed(Init(Hash, readers), es, t);
    assert BucketOf(t, u) == t.buckets[Hash(u)];
  }

  /**
   The hash ignores the three lowest bits of a unit and is the sum, modulo the size, of the next three
   digits base 256; so it keeps units apart that differ in one of these digits only.
  */
  lemma HashDigits(b: nat, d0: nat, d1: nat, d2: nat, high: nat)
    requires b < 8 && d0 < SIZE && d1 < SIZE && d2 < SIZE
    ensures Hash(8 * (d0 + SIZE * (d1 + SIZE * (d2 + SIZE * high))) + b) == (d0 + d1 + d2) % SIZE
  {
    var a2 := d2 + SIZE * high;
    var a1 := d1 + SIZE * a2;
    var a := d0 + SIZE * a1;
    DivModUnique(a1, d0, SIZE);
    DivModUnique(a2, d1, SIZE);
    assert a / 65536 == a2;
    HashIs(a, b);
    SumDigits(d0, d1, d2, a1, a2, high);
  }

  lemma SumDigits(d0: nat, d1: nat, d2: nat, a1: nat, a2: nat, high: nat)
    requires a1 == d1 + SIZE * a2 && a2 == d2 + SIZE * high
    ensures (d0 + SIZE * a1 + a1 + a2) % SIZE == (d0 + d1 + d2) % SIZE
  {
    RemainderShift(a1 + a2 + high, d0 + d1 + d2, SIZE);
  }

  lemma HashIs(a: nat, b: nat)
    requires b < 8
    ensures Hash(8 * a + b) == (a + a / 256 + a / 65536) % SIZE
  {
    ShiftDropsLowBits(a, b, 256);
    ShiftDropsLowBits(a, b, 65536);
    SumOfShifts(8 * a + b, a, a / 256, a / 65536);
  }

  lemma SumOfShifts(unit: nat, p: nat, q: nat, r: nat)
    requires unit / 8 == p && unit / 2048 == q && unit / 524288 == r
    ensures Hash(unit) == (p + q + r) % SIZE
  {
  }

  lemma ShiftDropsLowBits(a: nat, b: nat, m: nat)
    requires b < 8 && 0 < m
    ensures (8 * a + b) / 8 == a && (8 * a + b) / (8 * m) == a / m
  {
    var q, r := a / m, a % m;
    DivModUnique(a, b, 8);
    assert 8 * a + b == q * (8 * m) + (8 * r + b);
    DivModUnique(q, 8 * r + b, 8 * m);
  }

  // ---------------------------------------------------------------- the length of a list

  /** State p is passed after the first k events of a run from t to t'. */
  ghost predicate Passes(t: Table, es: seq<Event>, t': Table, k: nat, p: Table) {
    k <= |es| && Runs(t, es[..k], p) && Runs(p, es[k..], t')
  }

  /** Every node of the bucket is in use and no map is filling one. */
  predicate Full(t: Table, b: nat)
    requires b < |t.buckets|
  {
    t.buckets[b].filling == None && forall k :: 0 <= k < |t.buckets[b].nodes| ==> Used(t.buckets[b].nodes[k])
  }

  /** A list grows only when it is full, and then it is full again. */
  lemma StepLength(t: Table, e: Event, b: nat)
    requires Enabled(t, e) && b < SIZE
    ensures var t' := Step(t, e);
      && |t'.buckets| == SIZE && |t.buckets[b].nodes| <= |t'.buckets[b].nodes|
      && (|t'.buckets[b].nodes| == |t.buckets[b].nodes| || Full(t', b))
  {
  }

  lemma {:induction false} RunLength(t: Table, es: seq<Event>, t': Table, b: nat)
    requires Runs(t, es, t') && |t.buckets| == SIZE && b < SIZE
    ensures |t'.buckets| == SIZE && |t.buckets[b].nodes| <= |t'.buckets[b].nodes|
    decreases |es|
  {
    if es != [] {
      StepLength(t, es[0], b);
      RunLength(Step(t, es[0]), es[1..], t', b);
    }
  }

  lemma PassesNext(t: Table, es: seq<Event>, t': Table, k: nat, p: Table)
    requires es != [] && Enabled(t, es[0]) && Passes(Step(t, es[0]), es[1..], t', k, p)
    ensures Passes(t, es, t', k + 1, p)
  {
    assert es[..k + 1][0] == es[0] && es[..k + 1][1..] == es[1..][..k];
    assert es[k + 1..] == es[1..][k..];
  }

  /** Unless the list is as long as at the start, some state on the way was full at its final length. */
  lemma {:induction false} GrownReached(t: Table, es: seq<Event>, t': Table, b: nat) returns (k: nat, p: Table)
    requires Runs(t, es, t') && |t.buckets| == |t'.buckets| == SIZE && b < SIZE
    requires |t.buckets[b].nodes| < |t'.buckets[b].nodes|
    ensures Passes(t, es, t', k, p) && |p.buckets| == SIZE && Full(p, b)
    ensures |p.buckets[b].nodes| == |t'.buckets[b].nodes|
    decreases |es|
  {
    var t1 := Step(t, es[0]);
    StepLength(t, es[0], b);
    RunLength(t1, es[1..], t', b);
    if |t1.buckets[b].nodes| < |t'.buckets[b].nodes| {
      k, p := GrownReached(t1, es[1..], t', b);
    } else {
      k, p := 0, t1;
      assert es[1..][..0] == [] && es[1..][0..] == es[1..];
    }
    PassesNext(t, es, t', k, p);
    k := k + 1;
  }

  lemma LengthReached(t: Table, es: seq<Event>, t': Table, b: nat) returns (k: nat, p: Table)
    requires Runs(t, es, t') && |t.buckets| == SIZE && b < SIZE && Full(t, b)
    ensures |t'.buckets| == SIZE && Passes(t, es, t', k, p) && |p.buckets| == SIZE && Full(p, b)
    ensures |p.buckets[b].nodes| == |t'.buckets[b].nodes|
  {
    RunLength(t, es, t', b);
    k, p := 0, t;
    assert es[..0] == [] && es[0..] == es;
    if |t.buckets[b].nodes| < |t'.buckets[b].nodes| {
      k, p := GrownReached(t, es, t', b);
    }
  }

  /** The units mapped at the moment that hash to bucket b. */
  ghost function MappedUnits(t: Table, b: nat): set<nat> {
    set u | u in t.mapped && t.hash(u) == b
  }

  /** The units in the nodes of a list that have one of the units us. */
  function UnitsIn(nodes: seq<Node>, us: set<nat>): set<nat> {
    set n | n in nodes && n.unit in us :: n.unit
  }

  function Among(us: set<nat>): Node -> bool { (n: Node) => n.unit in us }

  lemma UnitsInNext(nodes: seq<Node>, n: Node, us: set<nat>)
    ensures UnitsIn(nodes + [n], us) == UnitsIn(nodes, us) + if n.unit in us then {n.unit} else {}
  {
  }

  lemma NotAmongUnits(nodes: seq<Node>, u: nat, us: set<nat>)
    requires forall i :: 0 <= i < |nodes| ==> nodes[i].unit in us ==> nodes[i].unit != u
    ensures u !in UnitsIn(nodes, us)
  {
  }

  /** Nodes of different units count as many as the units they have. */
  lemma {:induction false} CountIsSize(nodes: seq<Node>, us: set<nat>)
    requires forall i, j :: 0 <= i < j < |nodes| && nodes[i].unit in us ==> nodes[i].unit != nodes[j].unit
    ensures |UnitsIn(nodes, us)| == Count(nodes, Among(us))
  {
    if nodes != [] {
      var k := |nodes| - 1;
      var rest, n := nodes[..k], nodes[k];
      assert nodes == rest + [n];
      CountIsSize(rest, us);
      UnitsInNext(rest, n, us);
      NotAmongUnits(rest, n.unit, us);
    }
  }

  /** The units mapped in a bucket are those of so many of its nodes. */
  lemma MappedCount(t: Table, b: nat)
    requires Inv(t) && b < SIZE
    ensures |MappedUnits(t, b)| == Count(t.buckets[b].nodes, Among(MappedUnits(t, b)))
  {
    var nodes, us := t.buckets[b].nodes, MappedUnits(t, b);
    forall u | u in us ensures u in UnitsIn(nodes, us) {
      assert InNode(t, u);
      assert nodes[t.index[u]].unit == u;
    }
    assert UnitsIn(nodes, us) == us;
    forall i, j | 0 <= i < j < |nodes| && nodes[i].unit in us ensures nodes[i].unit != nodes[j].unit {
      assert NodeOk(t, b, i) && NodeOk(t, b, j);
    }
    CountIsSize(nodes, us);
  }

  lemma FullIsMapped(t: Table, b: nat)
    requires Inv(t) && b < SIZE && Full(t, b)
    ensures |MappedUnits(t, b)| == |t.buckets[b].nodes|
  {
    var nodes, us := t.buckets[b].nodes, MappedUnits(t, b);
    MappedCount(t, b);
    forall k | 0 <= k < |nodes| ensures Among(us)(nodes[k]) {
      assert NodeOk(t, b, k);
    }
    CountAll(nodes, Among(us));
  }

  /** In every state a run passes, at most as many units of a bucket are mapped as its list is long at the end. */
  lemma NeverMoreMapped(t: Table, es: seq<Event>, t': Table, k: nat, p: Table, b: nat)
    requires Inv(t) && Passes(t, es, t', k, p) && b < SIZE
    ensures |t'.buckets| == SIZE && |MappedUnits(p, b)| <= |t'.buckets[b].nodes|
  {
    RunKeeps(t, es[..k], p);
    RunLength(p, es[k..], t', b);
    MappedCount(p, b);
  }

  lemma {:induction false} PassesAt(t: Table, es: seq<Event>, t': Table, k: nat) returns (p: Table)
    requires Runs(t, es, t') && k <= |es|
    ensures Passes(t, es, t', k, p)
    decreases |es|
  {
    if k == 0 {
      p := t;
      assert es[..0] == [] && es[0..] == es;
    } else {
      p := PassesAt(Step(t, es[0]), es[1..], t', k - 1);
      PassesNext(t, es, t', k - 1, p);
    }
  }

  /** The units that the events leave mapped and that hash to bucket b. */
  ghost function UnitsBy(hash: nat -> nat, es: seq<Event>, b: nat): set<nat> {
    set u | u in MappedBy(es) && hash(u) == b
  }

  lemma PassedUnits(hash: nat -> nat, readers: nat, es: seq<Event>, t: Table, k: nat, p: Table, b: nat)
    requires (forall u: nat :: hash(u) < SIZE) && Passes(Init(hash, readers), es, t, k, p)
    ensures MappedUnits(p, b) == UnitsBy(hash, es[..k], b)
  {
    MappedIsMappedBy(hash, readers, es[..k], p);
    HashFixed(Init(hash, readers), es[..k], p);
  }

  /**
   A bucket's list is as long as the largest number of units of the bucket that were ever mapped at
   once: after no beginning of the run were there more, and after one there were as many.
  */
  lemma LengthIsPeak(hash: nat -> nat, readers: nat, es: seq<Event>, t: Table, b: nat)
    requires (forall u: nat :: hash(u) < SIZE) && Runs(Init(hash, readers), es, t) && b < SIZE
    ensures |t.buckets| == SIZE
    ensures forall k :: 0 <= k <= |es| ==> |UnitsBy(hash, es[..k], b)| <= |t.buckets[b].nodes|
    ensures exists k :: 0 <= k <= |es| && |UnitsBy(hash, es[..k], b)| == |t.buckets[b].nodes|
  {
    var start := Init(hash, readers);
    InitInv(hash, readers);
    var k0, p0 := LengthReached(start, es, t, b);
    RunKeeps(start, es[..k0], p0);
    FullIsMapped(p0, b);
    PassedUnits(hash, readers, es, t, k0, p0, b);
    assert |UnitsBy(hash, es[..k0], b)| == |t.buckets[b].nodes|;
    forall k | 0 <= k <= |es| ensures |UnitsBy(hash, es[..k], b)| <= |t.buckets[b].nodes| {
      var p := PassesAt(start, es, t, k);
      NeverMoreMapped(start, es, t, k, p, b);
      PassedUnits(hash, readers, es, t, k, p, b);
    }
  }

  // ---------------------------------------------------------------- the list walks

  /** The scan of unit_map_thread for a tombstone, from the head down. */
  method FindTombstone(nodes: seq<Node>) returns (k: int)
    ensures k == -1 ==> forall i :: 0 <= i < |nodes| ==> Used(nodes[i])
    ensures k != -1 ==> FirstFrom(nodes, k, Holds(NULL_UNIT))
  {
    k := |nodes| - 1;
    while 0 <= k
      invariant -1 <= k < |nodes|
      invariant forall i :: k < i < |nodes| ==> Used(nodes[i])
    {
      if nodes[k].unit == NULL_UNIT {
        return;
      }
      k := k - 1;
    }
  }

  /** The walk of unit_unmap_thread: the unit is in the list, so the end is never reached. */
  method FindUnit(nodes: seq<Node>, unit: nat) returns (k: nat)
    requires exists i :: 0 <= i < |nodes| && nodes[i].unit == unit
    ensures FirstFrom(nodes, k, Holds(unit))
  {
    k := |nodes| - 1;
    while nodes[k].unit != unit
      invariant k < |nodes|
      invariant forall i :: k < i < |nodes| ==> nodes[i].unit != unit
      decreases k
    {
      k := k - 1;
    }
  }
}
