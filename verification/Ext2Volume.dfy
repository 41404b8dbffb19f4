/** The mounted volume: block device, group descriptors and superblock counters,
    with the bitmap allocators for blocks and inodes. */
module Ext2Volume {
  import opened Ext2Bytes
  import opened Ext2Tree
  import Arith

  /** The two kinds of unit a group's bitmaps account for. */
  datatype Kind = Blocks | Inodes

  /** The free counters of a group descriptor or of the superblock. */
  datatype Counters = Counters(freeBlocks: nat, freeInodes: nat) {
    function Free(k: Kind): nat { if k.Blocks? then freeBlocks else freeInodes }

    function Plus(k: Kind, d: int): (c: Counters)
      requires Free(k) + d >= 0
      ensures c.Free(k) == Free(k) + d && forall l :: l != k ==> c.Free(l) == Free(l)
    {
      if k.Blocks? then this.(freeBlocks := freeBlocks + d) else this.(freeInodes := freeInodes + d)
    }
  }

  /** ext2_group_desc_t: where the two bitmaps live and how many units are free. */
  datatype Group = Group(blockBitmap: nat, inodeBitmap: nat, count: Counters) {
    function Bitmap(k: Kind): nat { if k.Blocks? then blockBitmap else inodeBitmap }
  }

  /** The block and inode numbers in use: the abstract value of the bitmaps. */
  datatype Marks = Marks(blocks: set<nat>, inodes: set<nat>) {
    function Of(k: Kind): set<nat> { if k.Blocks? then blocks else inodes }

    function Switched(k: Kind, n: nat, on: bool): Marks {
      var s := if on then Of(k) + {n} else Of(k) - {n};
      if k.Blocks? then this.(blocks := s) else this.(inodes := s)
    }
  }

  /** The superblock fields that never change after mounting. */
  datatype Geometry = Geometry(blockSize: nat, blocksPerGroup: nat, inodesPerGroup: nat,
                               firstDataBlock: nat, blocksCount: nat, numGroups: nat)
  {
    /** Bitmaps fill at most one block, group counters fit 16 bits and unit numbers 31. */
    predicate Valid() {
      && 0x400 <= blockSize < 0x1_0000 && blockSize % 4 == 0 && firstDataBlock <= 1
      && 0 < blocksPerGroup <= 8 * blockSize && blocksPerGroup < 0x1_0000
      && 0 < inodesPerGroup <= 8 * blockSize && inodesPerGroup < 0x1_0000
      && Sized()
    }

    /** The group count as ext2_mount computes it. */
    predicate Sized() {
      && 0 < blocksPerGroup && numGroups == (blocksCount + blocksPerGroup - 1) / blocksPerGroup
      && 0 < blocksCount < 0x7FFF_FFFF && numGroups * inodesPerGroup < 0x7FFF_FFFF
    }

    function PerGroup(k: Kind): nat { if k.Blocks? then blocksPerGroup else inodesPerGroup }

    function Base(k: Kind): nat { if k.Blocks? then firstDataBlock else 1 }

    /** How many bits of group `g`'s bitmap are scanned; the last group may be short. */
    function Units(k: Kind, g: nat): (n: nat)
      requires Valid()
      ensures n <= PerGroup(k)
    {
      if k.Blocks? && g == numGroups - 1 && blocksCount % blocksPerGroup != 0
      then blocksCount % blocksPerGroup
      else PerGroup(k)
    }

    /** The number of the unit at bit `i` of group `g`. */
    function Number(k: Kind, g: nat, i: nat): nat {
      g * PerGroup(k) + Base(k) + i
    }

    /** `n` numbers a unit of kind `k` that the bitmaps account for. */
    ghost predicate InRange(k: Kind, n: int)
      requires Valid()
    {
      exists g, i :: 0 <= g < numGroups && 0 <= i < Units(k, g) && n == Number(k, g, i)
    }

    /** The unsigned 32-bit subtraction that turns a number back into a bit position. */
    function Adjusted(k: Kind, n: u32): u32 { (n - Base(k)) % 0x1_0000_0000 }

    /** Group and bit of unit `n`. */
    function Position(k: Kind, n: u32): (nat, nat)
      requires Valid()
    {
      (Adjusted(k, n) / PerGroup(k), Adjusted(k, n) % PerGroup(k))
    }

    /** Dividing by the group size inverts the numbering, wrap-around included. */
    lemma Locate(k: Kind, n: u32, g: nat, i: nat)
      requires Valid() && (k.Inodes? ==> n > 0)
      requires (g, i) == Position(k, n)
      ensures g < numGroups ==> n == Number(k, g, i)
      ensures InRange(k, n) <==> g < numGroups && i < Units(k, g)
    {
      LocateForward(k, n, g, i);
      if InRange(k, n) {
        var h, j :| 0 <= h < numGroups && 0 <= j < Units(k, h) && n == Number(k, h, j);
        LocateBack(k, n, h, j);
      }
      hide Sized, Position, Number, Adjusted;
    }

    lemma LocateBack(k: Kind, n: u32, g: nat, i: nat)
      requires Valid() && i < PerGroup(k) && n == Number(k, g, i)
      ensures Position(k, n) == (g, i)
    {
      assert g * PerGroup(k) >= 0;
      Arith.Split(PerGroup(k), g, i, n - Base(k));
    }

    lemma LocateForward(k: Kind, n: u32, g: nat, i: nat)
      requires Valid() && (k.Inodes? ==> n > 0)
      requires (g, i) == Position(k, n)
      ensures g < numGroups ==> n == Number(k, g, i)
    {
      Arith.DivMod(Adjusted(k, n), PerGroup(k));
      if n < Base(k) {
        LastGroup(g, i);
      }
      hide Sized;
    }

    lemma BlocksInGroups(g: nat, i: nat)
      requires Valid() && i < blocksPerGroup
      ensures g < numGroups && i < Units(Blocks, g) <==> g * blocksPerGroup + i < blocksCount
    {
      var q, r := blocksCount / blocksPerGroup, blocksCount % blocksPerGroup;
      Arith.DivMod(blocksCount, blocksPerGroup);
      Arith.Lex(blocksPerGroup, g, i, q, r);
      if r == 0 {
        Arith.Split(blocksPerGroup, q, blocksPerGroup - 1, blocksCount + blocksPerGroup - 1);
      } else {
        assert (q + 1) * blocksPerGroup == q * blocksPerGroup + blocksPerGroup;
        Arith.Split(blocksPerGroup, q + 1, r - 1, blocksCount + blocksPerGroup - 1);
      }
    }

    lemma InodesInGroups(g: nat, i: nat)
      requires Valid() && i < inodesPerGroup
      ensures g < numGroups && i < Units(Inodes, g) <==> g * inodesPerGroup + i < numGroups * inodesPerGroup
    {
      Arith.Lex(inodesPerGroup, g, i, numGroups, 0);
    }

    /** How many units of kind `k` the bitmaps account for. */
    function Total(k: Kind): nat { if k.Blocks? then blocksCount else numGroups * inodesPerGroup }

    lemma InGroups(k: Kind, g: nat, i: nat)
      requires Valid() && i < PerGroup(k)
      ensures g < numGroups && i < Units(k, g) <==> g * PerGroup(k) + i < Total(k)
    {
      hide Sized, Units;
      if k.Blocks? {
        BlocksInGroups(g, i);
      } else {
        InodesInGroups(g, i);
      }
    }

    lemma NumberOf(k: Kind, n: nat) returns (g: nat, i: nat)
      requires Valid() && Base(k) <= n
      ensures i < PerGroup(k) && n == Number(k, g, i) && g * PerGroup(k) + i == n - Base(k)
    {
      PerGroupOk(k);
      g, i := (n - Base(k)) / PerGroup(k), (n - Base(k)) % PerGroup(k);
      hide Valid, PerGroup, Base;
      Arith.DivMod(n - Base(k), PerGroup(k));
    }

    lemma NumberBelow(k: Kind, g: nat, i: nat)
      requires Valid() && g < numGroups && i < Units(k, g)
      ensures Base(k) <= Number(k, g, i) < Base(k) + Total(k)
    {
      hide Sized, Units, Total, Base, PerGroup;
      InGroups(k, g, i);
      hide Valid;
      assert g * PerGroup(k) >= 0;
    }

    lemma NumbersRange(k: Kind, n: nat)
      requires Valid()
      ensures InRange(k, n) <==> Base(k) <= n < Base(k) + Total(k)
    {
      hide Valid, Number, Units, Total, Base, PerGroup;
      if InRange(k, n) {
        var g, i :| 0 <= g < numGroups && 0 <= i < Units(k, g) && n == Number(k, g, i);
        NumberBelow(k, g, i);
      } else if Base(k) <= n {
        var g, i := NumberOf(k, n);
        InGroups(k, g, i);
      }
    }

    /** How many units the groups before `g` hold. */
    function Span(k: Kind, g: nat): nat
      requires Valid()
    {
      if g == 0 then 0 else (g - 1) * PerGroup(k) + Units(k, g - 1)
    }

    lemma SpanStep(k: Kind, g: nat)
      requires Valid() && g < numGroups
      ensures Number(k, g, 0) == Base(k) + Span(k, g) && Span(k, g + 1) == Span(k, g) + Units(k, g)
    {
      assert g > 0 ==> (g - 1) * PerGroup(k) + PerGroup(k) == g * PerGroup(k);
    }

    lemma SpanTotal(k: Kind)
      requires Valid()
      ensures Span(k, numGroups) == Total(k)
    {
      var g := numGroups - 1;
      Arith.CeilDiv(blocksCount, blocksPerGroup);
      Arith.Next(g, PerGroup(k));
      if k.Blocks? {
        Arith.LastPiece(blocksCount, blocksPerGroup, g);
      }
    }

    lemma PerGroupOk(k: Kind)
      requires Valid()
      ensures PerGroup(k) > 0
    {
    }

    /** The numbers the bitmaps account for are consecutive. Inodes count from 1; blocks count from the
        first data block, as many as the device has, so that with a first data block of 1 the last
        number lies behind the device. */
    lemma RangeIff(n: nat)
      requires Valid()
      ensures InRange(Inodes, n) <==> 1 <= n <= numGroups * inodesPerGroup
      ensures InRange(Blocks, n) <==> firstDataBlock <= n < firstDataBlock + blocksCount
    {
      hide InRange, Valid;
      NumbersRange(Inodes, n);
      NumbersRange(Blocks, n);
    }

    lemma NoInodeZero()
      requires Valid()
      ensures !InRange(Inodes, 0)
    {
    }

    lemma LastGroup(g: nat, i: nat)
      requires Valid() && i < blocksPerGroup && g * blocksPerGroup + i == 0xFFFF_FFFF
      ensures g >= numGroups
    {
      Arith.CeilDiv(blocksCount, blocksPerGroup);
      Arith.Lex(blocksPerGroup, numGroups - 1, 0, g, i);
    }

    /** Distinct (group, bit) positions carry distinct numbers, ordered lexicographically. */
    lemma NumberOrder(k: Kind, g: nat, i: nat, h: nat, j: nat)
      requires i < PerGroup(k) && j < PerGroup(k)
      ensures Number(k, g, i) < Number(k, h, j) <==> g < h || (g == h && i < j)
    {
      Arith.Lex(PerGroup(k), g, i, h, j);
    }
  }

  function FreeSum(groups: seq<Group>, k: Kind): nat {
    if groups == [] then 0 else FreeSum(groups[..|groups| - 1], k) + groups[|groups| - 1].count.Free(k)
  }

  lemma {:induction false} FreeSumUpdate(groups: seq<Group>, g: nat, c: Counters, k: Kind)
    requires g < |groups|
    ensures FreeSum(groups[g := groups[g].(count := c)], k) == FreeSum(groups, k) + c.Free(k) - groups[g].count.Free(k)
  {
    var m, after := |groups| - 1, groups[g := groups[g].(count := c)];
    if g < m {
      FreeSumUpdate(groups[..m], g, c, k);
      assert after[..m] == groups[..m][g := groups[g].(count := c)];
    } else {
      assert after[..m] == groups[..m];
    }
  }

  lemma {:induction false} FreeSumZero(groups: seq<Group>, k: Kind)
    ensures FreeSum(groups, k) == 0 <==> forall g :: 0 <= g < |groups| ==> groups[g].count.Free(k) == 0
  {
    if groups != [] {
      FreeSumZero(groups[..|groups| - 1], k);
    }
  }

  /** How many of the `n` numbers from `lo` on are not in `taken`. */
  ghost function Spare(taken: set<nat>, lo: nat, n: nat): nat {
    if n == 0 then 0 else Spare(taken, lo, n - 1) + if lo + n - 1 in taken then 0 else 1
  }

  lemma {:induction false} SpareConcat(taken: set<nat>, lo: nat, m: nat, n: nat)
    ensures Spare(taken, lo, m + n) == Spare(taken, lo, m) + Spare(taken, lo + m, n)
    decreases n
  {
    if n > 0 {
      SpareConcat(taken, lo, m, n - 1);
    }
  }

  /** ext2_fs_t together with the device behind it. */
  datatype Fs = Fs(geo: Geometry, disk: seq<Block>, groups: seq<Group>, sb: Counters) {

    ghost predicate Shape() {
      && geo.Valid() && |groups| == geo.numGroups && |disk| == geo.blocksCount
      && (forall b :: 0 <= b < |disk| ==> |disk[b]| == geo.blockSize)
      && (forall g, k :: 0 <= g < |groups| ==> groups[g].Bitmap(k) < |disk|)
      && (forall g, k, h, l :: 0 <= g < |groups| && 0 <= h < |groups| && groups[g].Bitmap(k) == groups[h].Bitmap(l)
            ==> g == h && k == l)
    }

    function Bits(k: Kind, g: nat): Block
      requires g < |groups| && groups[g].Bitmap(k) < |disk|
    {
      disk[groups[g].Bitmap(k)]
    }

    ghost predicate CountedAt(k: Kind, g: nat)
      requires Shape() && g < |groups|
    {
      groups[g].count.Free(k) == CountClear(Bits(k, g), geo.Units(k, g))
    }

    /** Group counters equal the clear bits of their bitmaps; superblock counters are the sums. */
    ghost predicate Counted()
      requires Shape()
    {
      && (forall k, g :: 0 <= g < |groups| ==> CountedAt(k, g))
      && sb.freeBlocks == FreeSum(groups, Blocks) && sb.freeInodes == FreeSum(groups, Inodes)
    }

    /** The bitmaps hold exactly the numbers in `used`. */
    ghost predicate Marked(used: Marks)
      requires Shape()
    {
      forall k, g, i :: 0 <= g < |groups| && 0 <= i < geo.Units(k, g) ==>
        (geo.Number(k, g, i) in used.Of(k) <==> BitSet(Bits(k, g), i))
    }

    /** The allocator invariant. `reserved` are the blocks that belong to no file: block 0, the
        bitmaps, the descriptor and inode tables. Bits past the end of the device are set. */
    ghost predicate Sound(used: Marks, reserved: set<nat>) {
      && Shape() && Counted() && Marked(used)
      && 0 in reserved && reserved <= used.blocks
      && (forall g, k :: 0 <= g < |groups| ==> groups[g].Bitmap(k) in reserved)
      && (forall g, i :: 0 <= g < |groups| && 0 <= i < geo.Units(Blocks, g) ==>
            geo.Number(Blocks, g, i) in used.blocks || geo.Number(Blocks, g, i) < geo.blocksCount)
      && Tracked(used, reserved)
    }

    /** A block in use is metadata or one the bitmaps account for. */
    ghost predicate Tracked(used: Marks, reserved: set<nat>)
      requires geo.Valid()
    {
      forall b :: b in used.blocks && b !in reserved ==> geo.InRange(Blocks, b)
    }

    /** The parts of the invariant the file layer relies on. */
    lemma SoundFacts(used: Marks, reserved: set<nat>)
      requires Sound(used, reserved)
      ensures geo.Valid() && |disk| == geo.blocksCount && forall b :: 0 <= b < |disk| ==> |disk[b]| == geo.blockSize
      ensures 0 in reserved && reserved <= used.blocks
    {
    }

    lemma {:induction false} GroupSpare(k: Kind, g: nat, i: nat, used: Marks)
      requires Shape() && Marked(used) && g < |groups| && i <= geo.Units(k, g)
      ensures CountClear(Bits(k, g), i) == Spare(used.Of(k), geo.Number(k, g, 0), i)
      decreases i
    {
      if i > 0 {
        GroupSpare(k, g, i - 1, used);
        assert geo.Number(k, g, i - 1) == geo.Number(k, g, 0) + i - 1;
        assert geo.Number(k, g, i - 1) in used.Of(k) <==> BitSet(Bits(k, g), i - 1);
      }
    }

    lemma {:induction false} SumSpare(k: Kind, g: nat, used: Marks)
      requires Shape() && Counted() && Marked(used) && g <= |groups|
      ensures FreeSum(groups[..g], k) == Spare(used.Of(k), geo.Base(k), geo.Span(k, g))
      decreases g
    {
      if g > 0 {
        SumSpare(k, g - 1, used);
        GroupSpare(k, g - 1, geo.Units(k, g - 1), used);
        assert CountedAt(k, g - 1);
        assert groups[..g][..g - 1] == groups[..g - 1];
        geo.SpanStep(k, g - 1);
        SpareConcat(used.Of(k), geo.Base(k), geo.Span(k, g - 1), geo.Units(k, g - 1));
      }
      hide Counted, Marked, Geometry.Units, Geometry.Span, CountedAt;
    }

    /** The superblock counts the free units: its counters are the numbers of blocks and of inodes in
        the range of the bitmaps that are not in use. */
    lemma FreeUnits(used: Marks, reserved: set<nat>)
      requires Sound(used, reserved)
      ensures sb.freeBlocks == Spare(used.blocks, geo.firstDataBlock, geo.blocksCount)
      ensures sb.freeInodes == Spare(used.inodes, 1, geo.numGroups * geo.inodesPerGroup)
    {
      SumSpare(Blocks, |groups|, used);
      SumSpare(Inodes, |groups|, used);
      geo.SpanTotal(Blocks);
      geo.SpanTotal(Inodes);
      assert groups[..|groups|] == groups;
      hide Spare, Geometry.Span, FreeSum, Marked, CountedAt, Tracked;
    }

    /** Where a block and an inode are marked on the device: bit `i` of group `g`'s bitmap for that kind,
        the low bit of each byte first, stands for the `i`-th unit of the group. */
    lemma MarkedOnDisk(g: nat, i: nat, used: Marks, reserved: set<nat>)
      requires Sound(used, reserved) && g < |groups|
      ensures i < geo.blocksPerGroup && g * geo.blocksPerGroup + i < geo.blocksCount ==>
        && groups[g].blockBitmap < |disk| && i / 8 < |disk[groups[g].blockBitmap]|
        && (geo.firstDataBlock + g * geo.blocksPerGroup + i in used.blocks <==>
            disk[groups[g].blockBitmap][i / 8] / Pow2(i % 8) % 2 == 1)
      ensures i < geo.inodesPerGroup ==>
        && groups[g].inodeBitmap < |disk| && i / 8 < |disk[groups[g].inodeBitmap]|
        && (1 + g * geo.inodesPerGroup + i in used.inodes <==>
            disk[groups[g].inodeBitmap][i / 8] / Pow2(i % 8) % 2 == 1)
    {
      hide Counted, Tracked, BitSet, Bit, Pow2, Marked, Geometry.Sized;
      if i < geo.blocksPerGroup && g * geo.blocksPerGroup + i < geo.blocksCount {
        geo.BlocksInGroups(g, i);
        MarkedAt(Blocks, g, i, used);
      }
      if i < geo.inodesPerGroup {
        MarkedAt(Inodes, g, i, used);
      }
    }

    lemma MarkedAt(k: Kind, g: nat, i: nat, used: Marks)
      requires Shape() && Marked(used) && g < |groups| && i < geo.Units(k, g)
      ensures i / 8 < |Bits(k, g)|
      ensures geo.Number(k, g, i) in used.Of(k) <==> Bits(k, g)[i / 8] / Pow2(i % 8) % 2 == 1
    {
      BitIsDigit(Bits(k, g)[i / 8], i % 8);
      hide Bit, Pow2;
    }

    predicate CanSwitch(k: Kind, g: nat, i: nat, on: bool) {
      && geo.Valid() && g < |groups| && groups[g].Bitmap(k) < |disk|
      && i < geo.PerGroup(k) && i < 8 * |Bits(k, g)| && BitSet(Bits(k, g), i) != on
      && (on ==> groups[g].count.Free(k) > 0 && sb.Free(k) > 0)
    }

    /** set_bit or clear_bit in a group's bitmap, with both counters following. */
    function Switched(k: Kind, g: nat, i: nat, on: bool): Fs
      requires CanSwitch(k, g, i, on)
    {
      var d := if on then -1 else 1;
      this.(disk := disk[groups[g].Bitmap(k) := WithBit(Bits(k, g), i, on)],
            groups := groups[g := groups[g].(count := groups[g].count.Plus(k, d))],
            sb := sb.Plus(k, d))
    }

    lemma SwitchedShape(k: Kind, g: nat, i: nat, on: bool)
      requires Shape() && CanSwitch(k, g, i, on)
      ensures Switched(k, g, i, on).Shape()
      ensures forall h, l :: 0 <= h < |groups| ==>
        Switched(k, g, i, on).Bits(l, h) == if h == g && l == k then WithBit(Bits(k, g), i, on) else Bits(l, h)
    {
      var fs := Switched(k, g, i, on);
      assert forall h, l :: 0 <= h < |groups| ==> fs.groups[h].Bitmap(l) == groups[h].Bitmap(l);
    }

    lemma SwitchedCountedAt(k: Kind, g: nat, i: nat, on: bool, l: Kind, h: nat)
      requires Shape() && Counted() && CanSwitch(k, g, i, on) && h < |groups|
      ensures Switched(k, g, i, on).Shape()
      ensures Switched(k, g, i, on).CountedAt(l, h) <==> !(l == k && h == g) || i < geo.Units(k, g)
    {
      SwitchedShape(k, g, i, on);
      assert CountedAt(l, h);
      CountClearFlip(Bits(k, g), geo.Units(k, g), i, on);
    }

    /** The accounting survives exactly when the switched bit is one the counters count. */
    lemma SwitchedCounted(k: Kind, g: nat, i: nat, on: bool)
      requires Shape() && Counted() && CanSwitch(k, g, i, on)
      ensures Switched(k, g, i, on).Shape()
      ensures Switched(k, g, i, on).Counted() <==> i < geo.Units(k, g)
    {
      SwitchedShape(k, g, i, on);
      var fs := Switched(k, g, i, on);
      forall l, h | 0 <= h < |groups|
        ensures fs.CountedAt(l, h) <==> !(l == k && h == g) || i < geo.Units(k, g)
      {
        SwitchedCountedAt(k, g, i, on, l, h);
      }
      assert fs.CountedAt(k, g) <==> i < geo.Units(k, g);
      FreeSumUpdate(groups, g, fs.groups[g].count, Blocks);
      FreeSumUpdate(groups, g, fs.groups[g].count, Inodes);
      hide CountedAt, FreeSum, Shape;
    }

    lemma SwitchedMarked(k: Kind, g: nat, i: nat, on: bool, used: Marks)
      requires Shape() && Marked(used) && CanSwitch(k, g, i, on) && i < geo.Units(k, g)
      ensures Switched(k, g, i, on).Shape()
      ensures Switched(k, g, i, on).Marked(used.Switched(k, geo.Number(k, g, i), on))
    {
      SwitchedShape(k, g, i, on);
      var fs, used' := Switched(k, g, i, on), used.Switched(k, geo.Number(k, g, i), on);
      forall l, h, j | 0 <= h < |groups| && 0 <= j < geo.Units(l, h)
        ensures geo.Number(l, h, j) in used'.Of(l) <==> BitSet(fs.Bits(l, h), j)
      {
        if l == k {
          geo.NumberOrder(k, h, j, g, i);
          geo.NumberOrder(k, g, i, h, j);
        }
      }
    }

    /** One alloc or free of a counted unit keeps the invariant and no block outside `reserved` changes. */
    lemma SwitchedSound(k: Kind, g: nat, i: nat, on: bool, used: Marks, reserved: set<nat>)
      requires Sound(used, reserved) && CanSwitch(k, g, i, on) && i < geo.Units(k, g)
      requires k.Blocks? && !on ==> geo.Number(k, g, i) !in reserved && geo.Number(k, g, i) < geo.blocksCount
      ensures Switched(k, g, i, on).Sound(used.Switched(k, geo.Number(k, g, i), on), reserved)
      ensures geo.Number(k, g, i) in used.Of(k) <==> !on
      ensures k.Blocks? ==> geo.Number(k, g, i) !in reserved && geo.Number(k, g, i) < geo.blocksCount
      ensures forall b :: 0 <= b < |disk| && b !in reserved ==> Switched(k, g, i, on).disk[b] == disk[b]
    {
      SwitchedCounted(k, g, i, on);
      SwitchedMarked(k, g, i, on, used);
      assert BitSet(Bits(k, g), i) <==> geo.Number(k, g, i) in used.Of(k);
      var fs := Switched(k, g, i, on);
      assert forall h, l :: 0 <= h < |groups| ==> fs.groups[h].Bitmap(l) == groups[h].Bitmap(l);
      assert k.Blocks? && on ==> geo.InRange(Blocks, geo.Number(k, g, i));
      hide Shape, Counted, Marked, CountedAt, Geometry.InRange;
    }

    /** Setting a bit and clearing it again restores bitmap, descriptors and counters exactly. */
    lemma SwitchBack(k: Kind, g: nat, i: nat)
      requires CanSwitch(k, g, i, true)
      ensures Switched(k, g, i, true).CanSwitch(k, g, i, false)
      ensures Switched(k, g, i, true).Switched(k, g, i, false) == this
    {
      WithBitUndo(Bits(k, g), i);
    }

    /** A clear bit in range means both counters are positive. */
    lemma ClearIsCounted(k: Kind, g: nat, i: nat)
      requires Shape() && Counted() && g < |groups| && i < geo.Units(k, g) && !BitSet(Bits(k, g), i)
      ensures CanSwitch(k, g, i, true)
    {
      assert CountedAt(k, g);
      CountClearPositive(Bits(k, g), geo.Units(k, g));
      FreeSumZero(groups, k);
    }

    lemma SoundShape(used: Marks, reserved: set<nat>)
      requires Sound(used, reserved)
      ensures Shape() && Counted()
    {
    }

    /** The bitmap of its group has the bit of unit `n` set. */
    ghost predicate Taken(k: Kind, n: u32)
      requires Shape()
    {
      && (k.Inodes? ==> n > 0) && var (g, i) := geo.Position(k, n);
      g < geo.numGroups && i < 8 * |Bits(k, g)| && BitSet(Bits(k, g), i)
    }

    /** And the bit lies behind the last unit of its group, where the counters do not look. */
    ghost predicate Padding(k: Kind, n: u32)
      requires Shape()
    {
      Taken(k, n) && var (g, i) := geo.Position(k, n); i >= geo.Units(k, g)
    }

    /** What clearing the bit of unit `n` does, and when it can be done. */
    lemma Freeing(k: Kind, n: u32, g: nat, i: nat, used: Marks, reserved: set<nat>)
      requires Sound(used, reserved) && (k.Inodes? ==> n > 0)
      requires (g, i) == geo.Position(k, n)
      ensures geo.Valid() && |groups| == geo.numGroups
      ensures g < geo.numGroups ==> groups[g].Bitmap(k) < |disk| && i < 8 * |Bits(k, g)|
      ensures g >= geo.numGroups ==> !geo.InRange(k, n)
      ensures Taken(k, n) <==> g < geo.numGroups && BitSet(Bits(k, g), i)
      ensures Padding(k, n) <==> Taken(k, n) && !geo.InRange(k, n)
      ensures g < geo.numGroups && geo.InRange(k, n) ==> (BitSet(Bits(k, g), i) <==> n in used.Of(k))
      ensures g < geo.numGroups && BitSet(Bits(k, g), i) ==>
        && CanSwitch(k, g, i, false) && var fs := Switched(k, g, i, false);
        && fs.Shape() && (fs.Counted() <==> geo.InRange(k, n))
        && (geo.InRange(k, n) && (k.Blocks? ==> n !in reserved && n < geo.blocksCount) ==>
              fs.Sound(used.Switched(k, n, false), reserved))
        && forall b :: 0 <= b < |disk| && b !in reserved ==> fs.disk[b] == disk[b]
    {
      geo.Locate(k, n, g, i);
      if g < geo.numGroups && BitSet(Bits(k, g), i) {
        SwitchedCounted(k, g, i, false);
        if i < geo.Units(k, g) && (k.Blocks? ==> n !in reserved && n < geo.blocksCount) {
          SwitchedSound(k, g, i, false, used, reserved);
        }
        hide Shape, Counted, Marked;
      }
    }

    /** A group whose counter is zero, or whose bitmap has no clear bit, has no free unit. */
    lemma FullGroup(k: Kind, g: nat, used: Marks)
      requires Shape() && Counted() && Marked(used) && g < |groups|
      requires groups[g].count.Free(k) == 0 || forall i :: 0 <= i < geo.Units(k, g) ==> BitSet(Bits(k, g), i)
      ensures forall i :: 0 <= i < geo.Units(k, g) ==> geo.Number(k, g, i) in used.Of(k)
      ensures groups[g].count.Free(k) == 0
    {
      assert CountedAt(k, g);
      CountClearPositive(Bits(k, g), geo.Units(k, g));
    }

    /** Writing a block that is not metadata leaves the allocator alone. */
    lemma WriteSound(b: nat, data: Block, used: Marks, reserved: set<nat>)
      requires Sound(used, reserved) && b < |disk| && b !in reserved && |data| == geo.blockSize
      ensures this.(disk := disk[b := data]).Sound(used, reserved)
    {
      var fs := this.(disk := disk[b := data]);
      assert forall h, k :: 0 <= h < |groups| ==> fs.Bits(k, h) == Bits(k, h);
      assert fs.Shape();
      forall k, g | 0 <= g < |groups| ensures fs.CountedAt(k, g) { assert CountedAt(k, g); }
      hide Tracked;
    }

    /** No free unit when the superblock counter is zero. */
    lemma NothingFree(k: Kind, used: Marks)
      requires Shape() && Counted() && Marked(used) && sb.Free(k) == 0
      ensures forall n :: geo.InRange(k, n) ==> n in used.Of(k)
    {
      FreeSumZero(groups, k);
      forall n | geo.InRange(k, n) ensures n in used.Of(k) {
        var g, i :| 0 <= g < geo.numGroups && 0 <= i < geo.Units(k, g) && n == geo.Number(k, g, i);
        FullGroup(k, g, used);
      }
    }

    /** With every unit before (g, i) in use, no lower number is free. */
    lemma LowestFree(k: Kind, used: Marks, g: nat, i: nat)
      requires Shape() && Marked(used) && g < |groups| && i < geo.Units(k, g)
      requires forall h, j :: 0 <= h < g && 0 <= j < geo.Units(k, h) ==> geo.Number(k, h, j) in used.Of(k)
      requires forall j :: 0 <= j < i ==> BitSet(Bits(k, g), j)
      ensures forall n :: geo.InRange(k, n) && n < geo.Number(k, g, i) ==> n in used.Of(k)
    {
      forall n | geo.InRange(k, n) && n < geo.Number(k, g, i) ensures n in used.Of(k) {
        var h, j :| 0 <= h < geo.numGroups && 0 <= j < geo.Units(k, h) && n == geo.Number(k, h, j);
        geo.NumberOrder(k, h, j, g, i);
      }
    }
  }

  /** A snapshot of the volume, with the two abstractions the proofs carry: the numbers in use
      and the owner of each file block. */
  datatype State = State(fs: Fs, inodes: seq<Inode>, used: Marks, owner: map<nat, Ref>) {

    /** Allocator and block trees are consistent: owned blocks are marked used and are not metadata. */
    ghost predicate Valid(reserved: set<nat>) {
      && fs.Sound(used, reserved) && Owned(fs.disk, inodes, owner)
      && forall b :: b in owner ==> b in used.blocks && b !in reserved
    }

    function Get(k: nat, s: Slot): u32
      requires k < |inodes|
    {
      At(fs.disk, inodes[k], s)
    }
  }

  /** What can go wrong on the way to the device while a bitmap is being changed. */
  datatype Fault = NoFault | ReadFails | BitmapWriteFails | DescriptorWriteFails

  class Volume {
    var fs: Fs
    /** The inode structures of the open nodes, by inode number. */
    var inodes: seq<Inode>
    /** The inode table on disk, by inode number. */
    var table: seq<Inode>

    ghost var used: Marks
    ghost var owner: map<nat, Ref>
    ghost const reserved: set<nat>

    /** A mounted volume, its inodes as read from the table. */
    constructor (fs: Fs, inodes: seq<Inode>, ghost used: Marks, ghost owner: map<nat, Ref>, ghost reserved: set<nat>)
      requires State(fs, inodes, used, owner).Valid(reserved)
      ensures Valid() && Now() == State(fs, inodes, used, owner) && table == inodes && this.reserved == reserved
    {
      this.fs, this.inodes, table := fs, inodes, inodes;
      this.used, this.owner, this.reserved := used, owner, reserved;
    }

    ghost predicate Sound()
      reads this
    {
      fs.Sound(used, reserved)
    }

    ghost function Now(): State
      reads this
    {
      State(fs, inodes, used, owner)
    }

    ghost predicate Valid()
      reads this
    {
      Now().Valid(reserved)
    }

    /** The second half of an allocation: write the bitmap and the descriptor, or roll back. */
    method Commit(k: Kind, g: nat, bit: nat, fault: Fault) returns (ok: bool)
      requires Sound() && fs.CanSwitch(k, g, bit, true) && bit < fs.geo.Units(k, g)
      modifies this`fs, this`used
      ensures Sound() && ok == (fault != BitmapWriteFails && fault != DescriptorWriteFails)
      ensures !ok ==> fs == old(fs) && used == old(used)
      ensures ok ==> fs == old(fs).Switched(k, g, bit, true)
      ensures ok ==> used == old(used).Switched(k, fs.geo.Number(k, g, bit), true)
    {
      hide Fs.Sound;
      if fault == BitmapWriteFails {
        return false;
      }
      fs.SwitchedSound(k, g, bit, true, used, reserved);
      fs := fs.Switched(k, g, bit, true);
      if fault == DescriptorWriteFails {
        old(fs).SwitchBack(k, g, bit);
        fs := fs.Switched(k, g, bit, false);
        return false;
      }
      used := used.Switched(k, fs.geo.Number(k, g, bit), true);
      return true;
    }

    /** ext2_alloc_block and ext2_alloc_inode: take the lowest-numbered free unit. */
    method AllocUnit(k: Kind, fault: Fault) returns (r: int)
      requires Sound()
      modifies this`fs, this`used
      ensures Sound() && fs.geo == old(fs).geo && fs.geo.Valid()
      ensures r == -1 ==> fs == old(fs) && used == old(used)
      ensures r != -1 ==> 0 <= r && fs.geo.InRange(k, r) && r !in old(used.Of(k))
      ensures r != -1 ==> used == old(used).Switched(k, r, true)
      ensures r != -1 ==> old(fs).sb.Free(k) > 0 && fs.sb == old(fs).sb.Plus(k, -1)
      ensures r != -1 ==> forall n :: fs.geo.InRange(k, n) && n < r ==> n in old(used.Of(k))
      ensures fault == NoFault && r == -1 ==> forall n :: fs.geo.InRange(k, n) ==> n in old(used.Of(k))
      ensures fault == NoFault ==> (r == -1 <==> old(fs).sb.Free(k) == 0)
      ensures |fs.disk| == |old(fs).disk|
      ensures forall b :: 0 <= b < |fs.disk| && b !in reserved ==> fs.disk[b] == old(fs).disk[b]
    {
      if fs.sb.Free(k) == 0 {
        fs.NothingFree(k, used);
        return -1;
      }
      for g := 0 to fs.geo.numGroups
        invariant fs == old(fs) && used == old(used)
        invariant forall h, j :: 0 <= h < g && 0 <= j < fs.geo.Units(k, h) ==> fs.geo.Number(k, h, j) in used.Of(k)
        invariant forall h :: 0 <= h < g ==> fs.groups[h].count.Free(k) == 0
      {
        if fs.groups[g].count.Free(k) == 0 {
          fs.FullGroup(k, g, used);
          continue;
        }
        if fault == ReadFails {
          return -1;
        }
        var bit := FindFirstZeroBit(fs.Bits(k, g), fs.geo.Units(k, g));
        if bit < 0 {
          fs.FullGroup(k, g, used);
          continue;
        }
        fs.ClearIsCounted(k, g, bit);
        fs.LowestFree(k, used, g, bit);
        fs.SwitchedSound(k, g, bit, true, used, reserved);
        var ok := Commit(k, g, bit, fault);
        return if ok then fs.geo.Number(k, g, bit) else -1;
      }
      FreeSumZero(fs.groups, k);
      return -1;
    }

    /** ext2_free_block and ext2_free_inode. A double free is refused; freeing a unit the counters
        do not count (a padding bit of the last group) is what breaks the accounting. A failure to
        write the descriptor or the superblock is ignored. */
    method FreeUnit(k: Kind, n: u32, fault: Fault) returns (r: int)
      requires Sound()
      modifies this`fs, this`used
      ensures (r == 0 || r == -1) && fs.geo == old(fs).geo && fs.Shape()
      ensures r == -1 ==> fs == old(fs) && used == old(used)
      ensures r == 0 ==> used == old(used).Switched(k, n, false)
      ensures r == 0 <==> old(fs).Shape() && old(fs).Taken(k, n) && fault != ReadFails && fault != BitmapWriteFails
      ensures fs.geo.InRange(k, n) && fault == NoFault ==> (r == 0 <==> n in old(used.Of(k)))
      ensures fs.geo.InRange(k, n) && r == 0 ==> fs.sb == old(fs).sb.Plus(k, 1)
      ensures fs.geo.InRange(k, n) && (k.Blocks? ==> n !in reserved && n < fs.geo.blocksCount) ==> Sound()
      ensures fault == NoFault || fault == DescriptorWriteFails ==>
        (fs.Counted() <==> old(fs).Shape() && !old(fs).Padding(k, n))
      ensures |fs.disk| == |old(fs).disk|
      ensures forall b :: 0 <= b < |fs.disk| && b !in reserved ==> fs.disk[b] == old(fs).disk[b]
    {
      fs.SoundShape(used, reserved);
      if k.Inodes? && n == 0 {
        fs.geo.NoInodeZero();
        return -1;
      }
      var (group, bit) := fs.geo.Position(k, n);
      hide *;
      fs.Freeing(k, n, group, bit, used, reserved);
      if group >= fs.geo.numGroups || fault == ReadFails {
        return -1;
      }
      if !BitSet(fs.Bits(k, group), bit) || fault == BitmapWriteFails {
        return -1;
      }
      fs := fs.Switched(k, group, bit, false);
      used := used.Switched(k, n, false);
      return 0;
    }
  }
}
