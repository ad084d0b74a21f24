/**
 The address arithmetic of the storage stack: striping over drives (mylib/nvme.cc), the
 encoding of request identifiers, the placement of bounce slots in 2 MB pages, and the
 composition with the file system's block map (mylib/myfs.c).
*/
module Addressing {
  import opened Arithmetic

  const BLOCK_SIZE := 2 * 1024 * 1024
  const NUM_BLOCKS := 700 * 1024
  const SECTOR := 512
  /** Sectors of one stripe unit (RAID_FACTOR). */
  const STRIPE := 8
  /** Bytes of one stripe unit, which is also the size of a bounce slot (BLKSZ). */
  const UNIT := 4096
  const UINT_MAX := 0xffff_ffff

  // ---------------------------------------------------------------- striping

  function Drive(lba: nat, nd: nat): (d: nat)
    requires 0 < nd
    ensures d < nd
  {
    (lba / STRIPE) % nd
  }

  /** The sector number put into CDW10. */
  function DriveSector(lba: nat, nd: nat): nat
    requires 0 < nd
  {
    lba / STRIPE / nd * STRIPE + lba % STRIPE
  }

  function Unstripe(did: nat, sector: nat, nd: nat): nat
  {
    (sector / STRIPE * nd + did) * STRIPE + sector % STRIPE
  }

  /** Striping is a bijection between logical sectors and (drive, sector) pairs, for any number of drives. */
  lemma StripingRoundTrips(lba: nat, did: nat, sector: nat, nd: nat)
    requires did < nd
    ensures Unstripe(Drive(lba, nd), DriveSector(lba, nd), nd) == lba
    ensures Drive(Unstripe(did, sector, nd), nd) == did && DriveSector(Unstripe(did, sector, nd), nd) == sector
  {
    var s := lba / STRIPE;
    DivModUnique(s / nd, lba % STRIPE, STRIPE);
    assert s / nd * nd + s % nd == s;
    DivModUnique(sector / STRIPE * nd + did, sector % STRIPE, STRIPE);
    DivModUnique(sector / STRIPE, did, nd);
  }

  lemma DivAtMost(x: nat, m: nat)
    requires 0 < m
    ensures x / m <= x
  {
    MulMonotone(1, m, x / m);
  }

  lemma DriveSectorBound(lba: nat, nd: nat)
    requires 0 < nd
    ensures DriveSector(lba, nd) <= lba
  {
    DivAtMost(lba / STRIPE, nd);
  }

  // ---------------------------------------------------------------- request identifiers

  function Rid(did: nat, core: nat, cid: nat, qd: nat, nc: nat): nat {
    did * qd * nc + core * qd + cid
  }

  /** nvme_check recovers the drive, core and slot a request was submitted with. */
  lemma RidRoundTrips(did: nat, core: nat, cid: nat, qd: nat, nc: nat)
    requires core < nc && cid < qd
    ensures var rid := Rid(did, core, cid, qd, nc);
      rid / qd / nc == did && (rid / qd) % nc == core && rid % qd == cid
  {
    var k := did * nc + core;
    assert Rid(did, core, cid, qd, nc) == k * qd + cid by {
      assert did * qd * nc == did * nc * qd;
    }
    DivModUnique(k, cid, qd);
    DivModUnique(did, core, nc);
  }

  // ---------------------------------------------------------------- bounce slots

  /** Number of 2 MB pages of bounce memory of a queue of depth qd (N_2MB_PAGE). */
  function PageCount(qd: nat): (p: nat)
    ensures 0 < p
  {
    if qd * UNIT / BLOCK_SIZE > 1 then qd * UNIT / BLOCK_SIZE else 1
  }

  function BouncePage(cid: nat, qd: nat): nat { cid % PageCount(qd) }

  function BounceOffset(cid: nat, qd: nat): nat { UNIT * (cid / PageCount(qd)) }

  lemma BouncePageExists(cid: nat, qd: nat)
    ensures BouncePage(cid, qd) < PageCount(qd)
  {
  }

  /** Two slots never share a byte. */
  lemma BounceSlotsDisjoint(c: nat, d: nat, qd: nat)
    requires c != d && BouncePage(c, qd) == BouncePage(d, qd)
    ensures BounceOffset(c, qd) + UNIT <= BounceOffset(d, qd) || BounceOffset(d, qd) + UNIT <= BounceOffset(c, qd)
  {
    var p := PageCount(qd);
    assert c / p * p + c % p == c && d / p * p + d % p == d;
  }

  /**
   All slots of a queue lie inside their 2 MB pages exactly when the depth is at most 512 or a
   multiple of 512; the configured depth 2 * 512 is one of those.
  */
  lemma BounceSlotsFitPages(qd: nat)
    ensures (forall cid: nat :: cid < qd ==> BounceOffset(cid, qd) + UNIT <= BLOCK_SIZE) <==> qd <= 512 || qd % 512 == 0
  {
    var p := PageCount(qd);
    assert p == if qd / 512 > 1 then qd / 512 else 1;
    if qd <= 512 || qd % 512 == 0 {
      assert qd <= 512 * p;
      forall cid: nat | cid < qd ensures BounceOffset(cid, qd) + UNIT <= BLOCK_SIZE {
        MulMonotone(512, cid / p, p);
      }
    } else {
      var cid := 512 * p;
      DivModUnique(512, 0, p);
      assert cid < qd && BounceOffset(cid, qd) + UNIT > BLOCK_SIZE;
    }
  }

  // ---------------------------------------------------------------- byte addresses

  /** The byte address of a file offset that falls into device block `block`. */
  function ByteAddress(block: nat, offset: nat): nat {
    block * BLOCK_SIZE + offset % BLOCK_SIZE
  }

  /** Drive and byte on that drive where the stack keeps byte address g. */
  function HomeDrive(g: nat, nd: nat): (d: nat)
    requires 0 < nd
    ensures d < nd
  {
    (g / UNIT) % nd
  }

  function HomeByte(g: nat, nd: nat): nat
    requires 0 < nd
  {
    g / UNIT / nd * UNIT + g % UNIT
  }

  lemma HomeInjective(g: nat, h: nat, nd: nat)
    requires 0 < nd && HomeDrive(g, nd) == HomeDrive(h, nd) && HomeByte(g, nd) == HomeByte(h, nd)
    ensures g == h
  {
    DivModUnique(g / UNIT / nd, g % UNIT, UNIT);
    DivModUnique(h / UNIT / nd, h % UNIT, UNIT);
    assert g / UNIT == g / UNIT / nd * nd + g / UNIT % nd;
    assert h / UNIT == h / UNIT / nd * nd + h / UNIT % nd;
  }

  /** The logical sector myfs_get_lba computes for an offset in a block. */
  function BlockLba(block: nat, offset: nat): nat {
    (block * BLOCK_SIZE + offset % BLOCK_SIZE) / SECTOR
  }

  /** An offset and the offsets after it in its stripe unit are in one block. */
  lemma UnitInsideBlock(offset: nat, k: nat)
    requires offset % UNIT + k < UNIT
    ensures (offset + k) / BLOCK_SIZE == offset / BLOCK_SIZE && (offset + k) % BLOCK_SIZE == offset % BLOCK_SIZE + k
  {
    NestedRoom(offset, 512, UNIT, k + 1);
    AddInside(offset, k, BLOCK_SIZE);
  }

  lemma SectorsOfUnit(g: nat)
    requires g % SECTOR == 0
    ensures g / SECTOR / STRIPE == g / UNIT && g / SECTOR % STRIPE * SECTOR == g % UNIT
  {
    var s := g / SECTOR;
    DivModUnique(s / STRIPE, s % STRIPE * SECTOR, UNIT);
  }

  lemma AddressInUnit(block: nat, offset: nat)
    ensures ByteAddress(block, offset) % UNIT == offset % UNIT
    ensures offset % SECTOR == 0 ==> ByteAddress(block, offset) % SECTOR == 0
  {
    RemainderShift(block * 512, offset % BLOCK_SIZE, UNIT);
    RemainderShift(block * 4096, offset % BLOCK_SIZE, SECTOR);
    RemainderOfRemainder(offset, 512, UNIT);
    RemainderOfRemainder(offset, 4096, SECTOR);
  }

  /** The bytes of a stripe unit are consecutive on their drive. */
  lemma HomeOfSectors(g: nat, k: nat, nd: nat)
    requires 0 < nd && g % SECTOR == 0 && g % UNIT + k < UNIT
    ensures HomeDrive(g + k, nd) == Drive(g / SECTOR, nd)
    ensures HomeByte(g + k, nd) == DriveSector(g / SECTOR, nd) * SECTOR + k
  {
    AddInside(g, k, UNIT);
    SectorsOfUnit(g);
  }

  /**
   A sector-aligned chunk inside one stripe unit occupies consecutive bytes of one drive,
   starting at the sector named in its command.
  */
  lemma ChunkIsContiguous(block: nat, offset: nat, k: nat, nd: nat)
    requires 0 < nd && offset % SECTOR == 0 && offset % UNIT + k < UNIT
    ensures ByteAddress(block, offset + k) == ByteAddress(block, offset) + k
    ensures HomeDrive(ByteAddress(block, offset + k), nd) == Drive(BlockLba(block, offset), nd)
    ensures HomeByte(ByteAddress(block, offset + k), nd) == DriveSector(BlockLba(block, offset), nd) * SECTOR + k
  {
    UnitInsideBlock(offset, k);
    AddressInUnit(block, offset);
    HomeOfSectors(ByteAddress(block, offset), k, nd);
  }

  /** Every sector the file system can name fits the 32-bit CDW10 field. */
  lemma SectorFitsCommand(block: nat, offset: nat, nd: nat)
    requires 0 < nd && block < NUM_BLOCKS
    ensures DriveSector(BlockLba(block, offset), nd) <= UINT_MAX
  {
    DriveSectorBound(BlockLba(block, offset), nd);
  }
}
