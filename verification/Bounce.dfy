/**
 Bounce memory of a queue pair (mylib/nvme.cc): 2 MB pages, with slot c at the place buf4k_pa and
 get_buf4k compute.  Because slots do not overlap and stay inside their pages, storing into one slot
 is an update of that slot alone.
*/
module Bounce {
  import opened Prelude
  import opened Addressing

  type Pages = seq<seq<Byte>>

  /** The depths for which all slots lie inside their pages; see BounceSlotsFitPages. */
  predicate FitsPages(qd: nat) { qd <= 512 || qd % 512 == 0 }

  /** Enough pages, each of 2 MB. */
  predicate Sized(pages: Pages, qd: nat) {
    |pages| == PageCount(qd) && forall p :: 0 <= p < |pages| ==> |pages[p]| == BLOCK_SIZE
  }

  /** The UNIT bytes at offset o of page p. */
  function Window(pages: Pages, p: nat, o: nat): seq<Byte> {
    if p < |pages| && o + UNIT <= |pages[p]| then pages[p][o..o + UNIT] else []
  }

  function Slot(pages: Pages, cid: nat, qd: nat): seq<Byte> {
    Window(pages, BouncePage(cid, qd), BounceOffset(cid, qd))
  }

  /** All slots of a queue. */
  function SlotsOf(pages: Pages, qd: nat): (s: seq<seq<Byte>>)
    ensures |s| == qd
  {
    seq(qd, c requires 0 <= c => Slot(pages, c, qd))
  }

  /** A copy of data to offset o of page p. */
  function Copied(pages: Pages, p: nat, o: nat, data: seq<Byte>): Pages
    requires p < |pages| && o + |data| <= |pages[p]|
  {
    pages[p := pages[p][..o] + data + pages[p][o + |data|..]]
  }

  lemma CopiedHere(pages: Pages, p: nat, o: nat, data: seq<Byte>)
    requires p < |pages| && o + UNIT <= |pages[p]| && |data| <= UNIT
    ensures Window(Copied(pages, p, o, data), p, o) == data + Window(pages, p, o)[|data|..]
  {
    var old', new' := pages[p], Copied(pages, p, o, data)[p];
    var a, b := new'[o..o + UNIT], data + old'[o..o + UNIT][|data|..];
    forall i | 0 <= i < |a| ensures a[i] == b[i] {
      assert a[i] == new'[o + i];
      assert i >= |data| ==> b[i] == old'[o + i];
    }
  }

  lemma CopiedElsewhere(pages: Pages, p: nat, o: nat, data: seq<Byte>, q: nat, u: nat)
    requires p < |pages| && o + UNIT <= |pages[p]| && |data| <= UNIT
    requires p == q ==> o + UNIT <= u || u + UNIT <= o
    ensures Window(Copied(pages, p, o, data), q, u) == Window(pages, q, u)
  {
    if p == q && u + UNIT <= |pages[p]| {
      var old', new' := pages[p], Copied(pages, p, o, data)[p];
      assert forall i :: u <= i < u + UNIT ==> new'[i] == old'[i];
    }
  }

  lemma SlotInside(pages: Pages, cid: nat, qd: nat)
    requires FitsPages(qd) && Sized(pages, qd) && cid < qd
    ensures var p, o := BouncePage(cid, qd), BounceOffset(cid, qd); p < |pages| && o + UNIT <= |pages[p]| == BLOCK_SIZE
    ensures |Slot(pages, cid, qd)| == UNIT
  {
    BounceSlotsFitPages(qd);
    assert BounceOffset(cid, qd) + UNIT <= BLOCK_SIZE;
    BouncePageExists(cid, qd);
  }

  /** memcpy to the start of a slot. */
  function Stored(pages: Pages, cid: nat, qd: nat, data: seq<Byte>): Pages
    requires FitsPages(qd) && Sized(pages, qd) && cid < qd && |data| <= UNIT
  {
    SlotInside(pages, cid, qd);
    Copied(pages, BouncePage(cid, qd), BounceOffset(cid, qd), data)
  }

  /** Storing into a slot changes that slot and no other. */
  lemma StoredIsUpdate(pages: Pages, cid: nat, qd: nat, data: seq<Byte>)
    requires FitsPages(qd) && Sized(pages, qd) && cid < qd && |data| <= UNIT
    ensures Sized(Stored(pages, cid, qd, data), qd)
    ensures |SlotsOf(pages, qd)[cid]| == UNIT
    ensures var slots := SlotsOf(pages, qd);
      SlotsOf(Stored(pages, cid, qd, data), qd) == slots[cid := data + slots[cid][|data|..]]
  {
    SlotInside(pages, cid, qd);
    var p, o := BouncePage(cid, qd), BounceOffset(cid, qd);
    CopiedHere(pages, p, o, data);
    forall d | 0 <= d < qd && d != cid ensures Slot(Stored(pages, cid, qd, data), d, qd) == Slot(pages, d, qd) {
      if BouncePage(d, qd) == p {
        BounceSlotsDisjoint(cid, d, qd);
      }
      CopiedElsewhere(pages, p, o, data, BouncePage(d, qd), BounceOffset(d, qd));
    }
  }
}
