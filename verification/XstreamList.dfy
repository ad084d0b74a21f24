/**
 The list of execution streams of argobots/src/stream.c: doubly linked, sorted by rank, with the
 number of streams and an upper bound of the ranks kept beside it.  The list lock is held
 throughout each operation, so operations are atomic.
*/
module XstreamList {

  class Xstream {
    var rank: int
    var prev: Xstream?
    var next: Xstream?

    /** A fresh stream, as xstream_create leaves it before it gets a rank. */
    constructor ()
      ensures prev == null && next == null
    {
      rank, prev, next := 0, null, null;
    }
  }

  /** The list with x put at place k, and the list without its element k. */
  ghost function With(list: seq<Xstream>, k: nat, x: Xstream): seq<Xstream>
    requires k <= |list|
  {
    list[..k] + [x] + list[k..]
  }

  ghost function Without(list: seq<Xstream>, k: nat): seq<Xstream>
    requires k < |list|
  {
    list[..k] + list[k + 1..]
  }

  /** Rank r is taken by a stream of the list. */
  ghost predicate Taken(list: seq<Xstream>, r: int)
    reads list`rank
  {
    exists i :: 0 <= i < |list| && list[i].rank == r
  }

  ghost predicate Bounded(list: seq<Xstream>, limit: int)
    reads list`rank
  {
    forall i :: 0 <= i < |list| ==> 0 <= list[i].rank < limit
  }

  /** The ranks are below the limit, except that one may be the given rank. */
  ghost predicate Within(list: seq<Xstream>, limit: int, rank: int)
    reads list`rank
  {
    forall i :: 0 <= i < |list| ==> 0 <= list[i].rank && (list[i].rank < limit || list[i].rank == rank)
  }

  ghost predicate Sorted(list: seq<Xstream>)
    reads list`rank
  {
    forall i, j :: 0 <= i < j < |list| ==> list[i].rank < list[j].rank
  }

  ghost predicate Distinct(list: seq<Xstream>) {
    forall i, j :: 0 <= i < j < |list| ==> list[i] != list[j]
  }

  /** Place k separates the ranks below the given one from those above it. */
  ghost predicate Splits(list: seq<Xstream>, k: nat, rank: int)
    reads list`rank
  {
    && k <= |list|
    && (forall i :: 0 <= i < k ==> list[i].rank < rank)
    && (forall i :: k <= i < |list| ==> rank < list[i].rank)
  }

  lemma SplitsFirst(list: seq<Xstream>, k: nat, rank: int)
    requires Splits(list, k, rank)
    ensures 0 < k <==> list != [] && list[0].rank < rank
  {
  }

  lemma SortedInsert(list: seq<Xstream>, k: nat, x: Xstream)
    requires Sorted(list) && Splits(list, k, x.rank)
    ensures Sorted(With(list, k, x))
  {
    var r := With(list, k, x);
    forall i, j | 0 <= i < j < |r| ensures r[i].rank < r[j].rank {
      assert i < k ==> r[i] == list[i];
      assert i > k ==> r[i] == list[i - 1];
      assert j < k ==> r[j] == list[j];
      assert j > k ==> r[j] == list[j - 1];
    }
  }

  /** The next links run through the list, and the prev links run back to its first element. */
  ghost predicate Linked(list: seq<Xstream>)
    reads list`prev, list`next
  {
    && (forall i {:trigger list[i].next} :: 0 <= i < |list| - 1 ==> list[i].next == list[i + 1])
    && (|list| > 0 ==> list[|list| - 1].next == null)
    && (forall i {:trigger list[i].prev} :: 1 <= i < |list| ==> list[i].prev == list[i - 1])
  }

  ghost predicate HeadClean(list: seq<Xstream>)
    reads list`prev
  {
    |list| > 0 ==> list[0].prev == null
  }

  class Global {
    var head: Xstream?
    var num: int
    var max: int
    ghost var list: seq<Xstream>

    /** The list part: links, head pointer and order. */
    ghost predicate Listed()
      reads `head, `list, list
    {
      && head == (if list == [] then null else list[0])
      && Linked(list) && HeadClean(list) && Sorted(list)
    }

    ghost predicate Valid()
      reads this, list
    {
      && Listed() && num == |list|
      && Bounded(list, max)
    }

    constructor (limit: int)
      ensures Valid() && list == [] && max == limit
    {
      head, num, max, list := null, 0, limit, [];
    }

    /** The search loop of xstream_add_xstream_list: the first element with a larger rank and the one before it. */
    method FindPlace(rank: int) returns (p: Xstream?, before: Xstream?, ghost k: nat)
      requires Listed() && !Taken(list, rank)
      ensures Splits(list, k, rank)
      ensures p == (if k < |list| then list[k] else null)
      ensures before == (if k > 0 then list[k - 1] else head)
    {
      k := 0;
      p, before := head, head;
      while p != null
        invariant k <= |list|
        invariant p == (if k < |list| then list[k] else null)
        invariant before == (if k > 0 then list[k - 1] else head)
        invariant forall i :: 0 <= i < k ==> list[i].rank < rank
        decreases |list| - k
      {
        assert list[k].rank != rank;
        if p.rank > rank {
          break;
        }
        before, p := p, p.next;
        k := k + 1;
      }
    }

    /** The appending branch: x goes after `before`, or becomes the only element. */
    method Append(x: Xstream, before: Xstream?)
      requires head == (if list == [] then null else list[0]) && Linked(list) && Distinct(list) && x !in list
      requires before == (if list == [] then null else list[|list| - 1])
      modifies this`head, this`list, list`prev, list`next, x`prev, x`next
      ensures list == old(list) + [x] && head == list[0] && Linked(list)
      ensures if old(list) == [] then x.prev == null else list[0].prev == old(list[0].prev)
    {
      if before != null {
        before.next := x;
        x.prev, x.next := before, null;
      } else {
        x.prev, x.next := null, null;
        head := x;
      }
      list := list + [x];
    }

    /** The inserting branch: x goes before p, the k-th element. */
    method Insert(x: Xstream, p: Xstream, ghost k: nat)
      requires head == (if list == [] then null else list[0]) && Linked(list) && HeadClean(list)
        && Distinct(list) && x !in list
      requires k < |list| && p == list[k]
      modifies this`head, this`list, list`prev, list`next, x`prev, x`next
      ensures list == With(old(list), k, x) && head == list[0] && Linked(list)
      ensures list[0].prev == if k == 0 then old(x.prev) else null
    {
      if p.prev != null {
        p.prev.next := x;
        x.prev := p.prev;
      } else {
        head := x;
      }
      p.prev := x;
      x.next := p;
      list := With(list, k, x);
    }

    /**
     xstream_add_xstream_list.  Inserting before the first element does not touch x.prev, so the
     result is well formed exactly unless x comes with a stale prev link and becomes the head.
    */
    method Add(x: Xstream) returns (ghost k: nat)
      requires Listed() && x !in list && !Taken(list, x.rank) && Bounded(list, max) && 0 <= x.rank
      modifies this`head, this`list, list`prev, list`next, x`prev, x`next
      ensures k <= |old(list)| && list == With(old(list), k, x)
      ensures head == list[0] && Linked(list) && Sorted(list) && Within(list, max, x.rank)
      ensures HeadClean(list) <==> 0 < k || old(list) == [] || old(x.prev) == null
      ensures 0 < k <==> old(list) != [] && old(list[0].rank) < x.rank
    {
      SortedDistinct(list);
      var p, before;
      p, before, k := FindPlace(x.rank);
      SplitsFirst(list, k, x.rank);
      LinkSorted(x, p, before, k);
    }

    /** Linking x in where its rank belongs keeps the order. */
    method LinkSorted(x: Xstream, p: Xstream?, before: Xstream?, ghost k: nat)
      requires head == (if list == [] then null else list[0]) && Linked(list) && HeadClean(list)
        && Distinct(list) && x !in list
      requires Sorted(list) && Splits(list, k, x.rank) && Bounded(list, max) && 0 <= x.rank
      requires p == (if k < |list| then list[k] else null) && before == (if k > 0 then list[k - 1] else head)
      modifies this`head, this`list, list`prev, list`next, x`prev, x`next
      ensures list == With(old(list), k, x) && head == list[0] && Linked(list)
      ensures HeadClean(list) <==> 0 < k || old(list) == [] || old(x.prev) == null
      ensures Sorted(list) && Within(list, max, x.rank)
    {
      ghost var was := list;
      Link(x, p, before, k);
      SortedInsert(was, k, x);
      WithinInsert(was, max, k, x);
    }

    /** The two branches of xstream_add_xstream_list after its search. */
    method Link(x: Xstream, p: Xstream?, before: Xstream?, ghost k: nat)
      requires head == (if list == [] then null else list[0]) && Linked(list) && HeadClean(list)
        && Distinct(list) && x !in list
      requires k <= |list| && p == (if k < |list| then list[k] else null)
      requires before == (if k > 0 then list[k - 1] else head)
      modifies this`head, this`list, list`prev, list`next, x`prev, x`next
      ensures list == With(old(list), k, x) && head == list[0] && Linked(list)
      ensures HeadClean(list) <==> 0 < k || old(list) == [] || old(x.prev) == null
    {
      if p == null {
        Append(x, before);
      } else {
        Insert(x, p, k);
      }
    }

    /** The pointer updates of xstream_remove_xstream_list. */
    method Unlink(x: Xstream, ghost k: nat)
      requires head == (if list == [] then null else list[0]) && Linked(list) && HeadClean(list) && Distinct(list)
      requires k < |list| && list[k] == x
      modifies this`head, this`list, list`prev, list`next
      ensures list == Without(old(list), k)
      ensures head == (if list == [] then null else list[0]) && Linked(list) && HeadClean(list)
    {
      if x.prev == null {
        head := x.next;
      } else {
        x.prev.next := x.next;
      }
      if x.next != null {
        x.next.prev := x.prev;
      }
      list := Without(list, k);
    }

    /** Store x's rank; nothing in the list is touched. */
    method StoreRank(x: Xstream, rank: int)
      requires Listed() && x !in list && !Taken(list, rank) && Bounded(list, max)
      modifies x`rank
      ensures x.rank == rank && Listed() && !Taken(list, rank) && Bounded(list, max)
    {
      x.rank := rank;
    }

    /** Give x its rank and insert it. */
    method AddWithRank(x: Xstream, rank: int) returns (ghost k: nat)
      requires Listed() && x !in list && !Taken(list, rank) && Bounded(list, max) && 0 <= rank
      modifies this`head, this`list, list`prev, list`next, x
      ensures x.rank == rank && k <= |old(list)| && list == With(old(list), k, x)
      ensures head == list[0] && Linked(list) && Sorted(list) && Within(list, max, rank)
      ensures HeadClean(list) <==> 0 < k || old(list) == [] || old(x.prev) == null
      ensures 0 < k <==> old(list) != [] && old(list[0].rank) < rank
    {
      StoreRank(x, rank);
      k := Add(x);
    }

    /** xstream_remove_xstream_list; x keeps its own links. */
    method Remove(x: Xstream, ghost k: nat)
      requires Listed() && k < |list| && list[k] == x && Bounded(list, max)
      modifies this`head, this`list, list`prev, list`next
      ensures list == Without(old(list), k) && Listed() && x !in list && Bounded(list, max)
    {
      ghost var was := list;
      SortedDistinct(was);
      Unlink(x, k);
      SortedWithout(was, k);
      BoundedWithout(was, k, max);
      NotWithout(was, k);
    }

    /** xstream_update_max_xstreams: the least bound above the old ones and the rank. */
    method UpdateMax(rank: int)
      modifies this`max
      ensures rank < max && old(max) <= max
      ensures max == old(max) || max == rank + 1
      ensures rank < old(max) ==> max == old(max)
    {
      if rank >= max {
        max := rank + 1;
      }
    }

    /** The search for an unused rank in xstream_set_new_rank: the least one from 0 on. */
    method FreeRank() returns (rank: nat)
      requires Listed() && forall i :: 0 <= i < |list| ==> 0 <= list[i].rank
      ensures !Taken(list, rank) && forall r :: 0 <= r < rank ==> Taken(list, r)
    {
      rank := 0;
      var p := head;
      while p != null
        invariant rank <= |list| && p == (if rank < |list| then list[rank] else null)
        invariant forall i :: 0 <= i < rank ==> list[i].rank == i
        decreases |list| - rank
      {
        if p.rank != rank {
          break;
        }
        rank, p := rank + 1, p.next;
      }
      AtLeastIndex(list);
      forall r | 0 <= r < rank ensures Taken(list, r) {
        assert list[r].rank == r;
      }
      assert rank < |list| ==> rank < list[rank].rank;
    }

    /** Whether a rank is taken: the walk both rank setters make. */
    method IsTaken(rank: int) returns (taken: bool)
      requires Listed()
      ensures taken <==> Taken(list, rank)
    {
      var p := head;
      ghost var k := 0;
      while p != null
        invariant 0 <= k <= |list| && p == (if k < |list| then list[k] else null)
        invariant forall i :: 0 <= i < k ==> list[i].rank < rank
        decreases |list| - k
      {
        if p.rank == rank {
          return true;
        } else if p.rank > rank {
          break;
        }
        p := p.next;
        k := k + 1;
      }
      taken := false;
    }

    /** Raise the bound to the rank just inserted. */
    method Raise(rank: int)
      requires Listed() && Within(list, max, rank)
      modifies this`max
      ensures Listed() && Bounded(list, max) && rank < max && old(max) <= max
    {
      UpdateMax(rank);
    }

    method CountUp()
      requires Listed() && Bounded(list, max) && num + 1 == |list|
      modifies this`num
      ensures Valid()
    {
      num := num + 1;
    }

    method CountDown()
      requires Listed() && Bounded(list, max) && num - 1 == |list|
      modifies this`num
      ensures Valid()
    {
      num := num - 1;
    }

    /** The end of xstream_set_new_rank: insert x with an unused rank and count it. */
    method Enroll(x: Xstream, rank: nat) returns (ghost k: nat)
      requires Valid() && x !in list && x.prev == null && !Taken(list, rank)
      modifies this`head, this`list, this`num, this`max, list`prev, list`next, x
      ensures Valid() && x.rank == rank
      ensures k <= |old(list)| && list == With(old(list), k, x)
      ensures old(list) != [] && old(list[0].rank) == 0 ==> 0 < k
    {
      assert list != [] ==> list[0].rank != rank;
      k := AddWithRank(x, rank);
      Raise(rank);
      CountUp();
    }

    /**
     xstream_set_new_rank for a stream just created; rank -1 asks for the least unused rank.  On
     success x is in the list and num_xstreams, the length of the list, has grown by one.
    */
    method SetNewRank(x: Xstream, wanted: int) returns (ok: bool, ghost k: nat)
      requires Valid() && x !in list && x.prev == null && -1 <= wanted
      modifies this, list`prev, list`next, x
      ensures Valid()
      ensures ok <==> wanted == -1 || !old(Taken(list, wanted))
      ensures if ok then k <= |old(list)| && list == With(old(list), k, x) else list == old(list) && max == old(max)
      ensures ok && wanted != -1 ==> x.rank == wanted
      // a primary with rank 0 stays at the head
      ensures ok && old(list) != [] && old(list[0].rank) == 0 ==> 0 < k
      ensures ok && wanted == -1 ==>
        var r := x.rank; !old(Taken(list, r)) && forall q :: 0 <= q < r ==> old(Taken(list, q))
    {
      k := 0;
      var rank := wanted;
      if wanted == -1 {
        rank := FreeRank();
        forall q | 0 <= q < rank ensures old(Taken(list, q)) {
          assert Taken(list, q);
        }
      } else {
        var taken := IsTaken(wanted);
        if taken {
          return false, 0;
        }
      }
      k := Enroll(x, rank);
      ok := true;
    }

    /**
     xstream_change_rank, as ABT_xstream_set_rank calls it: for a secondary stream and a rank that
     is not negative.  The primary has rank 0 and is never moved, so x does not become the head
     and its stale prev link does no harm.
    */
    method ChangeRank(x: Xstream, rank: nat) returns (ok: bool, ghost k: nat, ghost m: nat)
      requires Valid() && x in list && x != list[0] && list[0].rank == 0
      modifies this`head, this`list, this`max, list`prev, list`next, x
      ensures Valid() && |list| == |old(list)| && list[0] == old(list[0]) && list[0].rank == 0
      ensures ok <==> rank == old(x.rank) || !old(Taken(list, rank))
      ensures x.rank == if ok then rank else old(x.rank)
      ensures ok && rank != old(x.rank) ==>
        k < |old(list)| && old(list)[k] == x && m < |old(list)| && list == With(Without(old(list), k), m, x)
      ensures !ok || rank == old(x.rank) ==> list == old(list)
    {
      k := Position(x);
      m := k;
      if x.rank == rank {
        return true, k, m;
      }
      var taken := IsTaken(rank);
      if taken {
        return false, k, m;
      }
      m := Move(x, rank, k);
      ok := true;
    }

    /** Take x out, give it the rank and put it back. */
    method Move(x: Xstream, rank: nat, ghost k: nat) returns (ghost m: nat)
      requires Valid() && 0 < k < |list| && list[k] == x && list[0].rank == 0 && !Taken(list, rank)
      modifies this`head, this`list, this`max, list`prev, list`next, x
      ensures Valid() && x.rank == rank && 0 < m < |old(list)| && list == With(Without(old(list), k), m, x)
      ensures |list| == |old(list)| && list[0] == old(list[0])
    {
      ghost var was := list;
      TakeOut(x, rank, k);
      m := Reinsert(x, rank);
      MovedFacts(was, k, m, x);
    }

    method TakeOut(x: Xstream, ghost rank: nat, ghost k: nat)
      requires Valid() && 0 < k < |list| && list[k] == x && list[0].rank == 0 && !Taken(list, rank)
      modifies this`head, this`list, list`prev, list`next
      ensures Listed() && x !in list && !Taken(list, rank) && 0 < rank && list == Without(old(list), k)
      ensures |list| > 0 && list[0].rank == 0 && num == |list| + 1 && Bounded(list, max)
    {
      WithoutFacts(list, k, rank);
      Remove(x, k);
    }

    method Reinsert(x: Xstream, rank: int) returns (ghost m: nat)
      requires Listed() && x !in list && !Taken(list, rank) && 0 < rank
      requires |list| > 0 && list[0].rank == 0
      requires num == |list| + 1 && Bounded(list, max)
      modifies this`head, this`list, this`max, list`prev, list`next, x
      ensures Valid() && m <= |old(list)| && 0 < m && list == With(old(list), m, x) && x.rank == rank
    {
      m := AddWithRank(x, rank);
      Raise(rank);
    }

    /** xstream_return_rank: x leaves the list and num_xstreams stays its length. */
    method ReturnRank(x: Xstream) returns (ghost k: nat)
      requires Valid() && x in list
      modifies this`head, this`list, this`num, list`prev, list`next
      ensures Valid() && x !in list && max == old(max)
      ensures k < |old(list)| && old(list)[k] == x && list == Without(old(list), k)
    {
      k := Position(x);
      Remove(x, k);
      CountDown();
    }

    /** Where x stands in the list. */
    ghost method Position(x: Xstream) returns (k: nat)
      requires x in list
      ensures k < |list| && list[k] == x
    {
      k :| 0 <= k < |list| && list[k] == x;
    }
  }

  lemma WithinInsert(list: seq<Xstream>, limit: int, k: nat, x: Xstream)
    requires Bounded(list, limit) && k <= |list| && 0 <= x.rank
    ensures Within(With(list, k, x), limit, x.rank)
  {
  }

  lemma BoundedWithout(list: seq<Xstream>, k: nat, limit: int)
    requires Bounded(list, limit) && k < |list|
    ensures Bounded(Without(list, k), limit)
  {
  }

  lemma WithoutFacts(list: seq<Xstream>, k: nat, rank: nat)
    requires 0 < k < |list| && !Taken(list, rank) && list[0].rank == 0
    ensures !Taken(Without(list, k), rank) && Without(list, k)[0] == list[0] && 0 < rank
  {
    assert list[0].rank != rank;
  }

  lemma MovedFacts(list: seq<Xstream>, k: nat, m: nat, x: Xstream)
    requires 0 < k < |list| && 0 < m < |list|
    ensures var moved := With(Without(list, k), m, x);
      |moved| == |list| && moved[0] == list[0]
  {
  }

  lemma SortedDistinct(list: seq<Xstream>)
    requires Sorted(list)
    ensures Distinct(list)
  {
    forall i, j | 0 <= i < j < |list| ensures list[i] != list[j] {
      assert list[i].rank < list[j].rank;
    }
  }

  lemma SortedWithout(list: seq<Xstream>, k: nat)
    requires Sorted(list) && k < |list|
    ensures Sorted(Without(list, k))
  {
    var r := Without(list, k);
    forall i, j | 0 <= i < j < |r| ensures r[i].rank < r[j].rank {
      assert r[i] == list[if i < k then i else i + 1] && r[j] == list[if j < k then j else j + 1];
    }
  }

  lemma NotWithout(list: seq<Xstream>, k: nat)
    requires Distinct(list) && k < |list|
    ensures list[k] !in Without(list, k)
  {
  }

  lemma AtLeastIndex(list: seq<Xstream>)
    requires Sorted(list) && forall i :: 0 <= i < |list| ==> 0 <= list[i].rank
    ensures forall i :: 0 <= i < |list| ==> i <= list[i].rank
  {
    var k := 0;
    while k < |list|
      invariant 0 <= k <= |list| && forall i :: 0 <= i < k ==> i <= list[i].rank
    {
      assert k > 0 ==> list[k - 1].rank < list[k].rank;
      k := k + 1;
    }
  }
}
