/** Small volumes that meet the invariants the other modules rely on: one on which the operations
    work, and one for each operation that goes wrong. */
module Ext2Sample {
  import opened Ext2Bytes
  import opened Ext2Tree
  import opened Ext2Volume
  import opened Ext2Files
  import opened Ext2Data
  import opened Ext2Io
  import opened Ext2Vfs
  import opened Ext2Ops
  import Dir = Ext2Dir

  /** Eight blocks of 1 KiB in one group of eight inodes; the group is short, as the last one of a
      volume can be. The bitmaps are blocks 1 and 2. */
  const GEOMETRY := Geometry(0x400, 16, 8, 0, 8, 1)

  const RESERVED: set<nat> := {0, 1, 2}

  /** A block bitmap with the bits behind the end of the device set, as formatting leaves it. */
  function Padded(): Block { Zeros(0x400)[1 := 0xFF] }

  /** Nothing marked yet; `boot` is block 0. */
  function Blank(boot: Block): Fs {
    Fs(GEOMETRY, seq(8, i requires 0 <= i < 8 => if i == 0 then boot else if i == 1 then Padded() else Zeros(0x400)),
       [Group(1, 2, Counters(8, 8))], Counters(8, 8))
  }

  lemma {:induction false} NoBit(k: nat)
    ensures !Bit(0, k)
  {
    if k > 0 {
      NoBit(k - 1);
    }
  }

  lemma {:induction false} AllClear(bm: Block, n: nat)
    requires n <= 8 && |bm| > 0 && bm[0] == 0
    ensures CountClear(bm, n) == n && forall i :: 0 <= i < n ==> !BitSet(bm, i)
  {
    if n > 0 {
      AllClear(bm, n - 1);
      NoBit(n - 1);
    }
  }

  /** A volume with this geometry and boot block, counted and marked. */
  ghost predicate Good(fs: Fs, boot: Block, used: Marks) {
    && fs.Shape() && fs.Counted() && fs.Marked(used) && fs.geo == GEOMETRY && fs.disk[0] == boot
    && fs.groups[0].blockBitmap == 1 && fs.groups[0].inodeBitmap == 2 && BitSet(fs.disk[1], 8)
  }

  lemma BlankGood(boot: Block)
    requires |boot| == 0x400
    ensures Good(Blank(boot), boot, Marks({}, {})) && Blank(boot).sb == Counters(8, 8)
  {
    var fs := Blank(boot);
    AllClear(Padded(), 8);
    AllClear(Zeros(0x400), 8);
    assert FreeSum(fs.groups[..0], Blocks) == 0 && FreeSum(fs.groups[..0], Inodes) == 0;
  }

  function Number(k: Kind, i: nat): nat { if k.Blocks? then i else i + 1 }

  /** Marking one more unit, as formatting does. */
  lemma Mark(fs: Fs, boot: Block, used: Marks, k: Kind, i: nat) returns (z: Fs)
    requires Good(fs, boot, used) && i < 8 && Number(k, i) !in used.Of(k)
    ensures Good(z, boot, used.Switched(k, Number(k, i), true)) && z.sb.Free(k) == fs.sb.Free(k) - 1
    ensures forall l :: l != k ==> z.sb.Free(l) == fs.sb.Free(l)
  {
    assert fs.geo.Number(k, 0, i) == Number(k, i);
    fs.ClearIsCounted(k, 0, i);
    fs.SwitchedCounted(k, 0, i, true);
    fs.SwitchedMarked(k, 0, i, true, used);
    z := fs.Switched(k, 0, i, true);
    hide Fs.Shape, Fs.Counted, Fs.Marked;
  }

  ghost function Upto(m: nat): (r: set<nat>)
    ensures forall i: nat :: i in r <==> i < m
  {
    if m == 0 then {} else Upto(m - 1) + {m - 1}
  }

  /** The first `m` blocks are in use. */
  lemma {:induction false} Filled(boot: Block, m: nat) returns (fs: Fs)
    requires |boot| == 0x400 && m <= 8
    ensures Good(fs, boot, Marks(Upto(m), {})) && fs.sb == Counters(8 - m, 8)
  {
    hide Good;
    if m == 0 {
      BlankGood(boot);
      fs := Blank(boot);
      assert Upto(0) == {};
    } else {
      fs := Filled(boot, m - 1);
      assert Marks(Upto(m - 1), {}).Switched(Blocks, Number(Blocks, m - 1), true) == Marks(Upto(m), {});
      fs := Mark(fs, boot, Marks(Upto(m - 1), {}), Blocks, m - 1);
      assert fs.sb.Free(Blocks) == 8 - m && fs.sb.Free(Inodes) == 8;
    }
  }

  /** And inodes 2 and 3. */
  ghost function Used(m: nat): Marks { Marks(Upto(m), {2, 3}) }

  lemma Formatting(boot: Block, m: nat) returns (fs: Fs)
    requires |boot| == 0x400 && 3 <= m <= 8
    ensures fs.Sound(Used(m), RESERVED) && fs.sb == Counters(8 - m, 6) && Good(fs, boot, Used(m))
  {
    fs := Filled(boot, m);
    assert Marks(Upto(m), {}).Switched(Inodes, Number(Inodes, 1), true) == Marks(Upto(m), {2});
    assert Marks(Upto(m), {2}).Switched(Inodes, Number(Inodes, 2), true) == Used(m);
    fs := Mark(fs, boot, Marks(Upto(m), {}), Inodes, 1);
    fs := Mark(fs, boot, Marks(Upto(m), {2}), Inodes, 2);
    assert fs.sb.Free(Blocks) == 8 - m && fs.sb.Free(Inodes) == 6;
    GoodSound(fs, boot, m);
    hide Good, Fs.Sound;
  }

  lemma GoodSound(fs: Fs, boot: Block, m: nat)
    requires Good(fs, boot, Used(m)) && 3 <= m <= 8
    ensures fs.Sound(Used(m), RESERVED)
  {
    hide Fs.Shape, Fs.Counted, Fs.Marked, Geometry.InRange, Geometry.Units;
    OneGroup(fs);
    AllInRange(m);
    UnitsFit();
  }

  lemma AllInRange(m: nat)
    requires m <= 8
    ensures GEOMETRY.Valid() && forall b :: b in Upto(m) ==> GEOMETRY.InRange(Blocks, b)
  {
    forall b | b in Upto(m) ensures GEOMETRY.InRange(Blocks, b) {
      assert GEOMETRY.Number(Blocks, 0, b) == b && b < GEOMETRY.Units(Blocks, 0);
    }
  }

  lemma UnitsFit()
    ensures forall i :: 0 <= i < GEOMETRY.Units(Blocks, 0) ==> GEOMETRY.Number(Blocks, 0, i) < GEOMETRY.blocksCount
  {
  }

  lemma OneGroup(fs: Fs)
    requires fs.Shape() && fs.geo == GEOMETRY
    ensures |fs.groups| == 1 && |fs.disk| == 8
  {
  }

  // ----- two files

  const DIRECTORY := Inode(0x41ED, 0x400, 2, 2, 0, NO_POINTERS[0 := 3])
  const SPARSE := Inode(0x81A4, 0x3400, 1, 0, 0, NO_POINTERS)

  /** The root directory is block 3. Inode 3 is a file of thirteen blocks: all holes, or, if `deep`,
      its last block is block 5, which the pointer block 4 names. */
  ghost function Disk(fs: Fs, d: Block): Fs
    requires |fs.disk| == 8
  {
    fs.(disk := fs.disk[3 := d][4 := PutLe32(Zeros(0x400), 0, 5)])
  }

  ghost function Sample(fs: Fs, m: nat, d: Block, deep: bool): State
    requires |fs.disk| == 8
  {
    State(Disk(fs, d),
          seq(9, i requires 0 <= i < 9 => if i == 2 then DIRECTORY
                                          else if i == 3 && deep then SPARSE.(ptr := NO_POINTERS[12 := 4]) else SPARSE),
          Used(m),
          if deep then map[3 := Ref(2, Direct(0)), 4 := Ref(3, Single), 5 := Ref(3, SingleEntry(0))]
          else map[3 := Ref(2, Direct(0))])
  }

  lemma SampleOwned(fs: Fs, m: nat, d: Block, deep: bool)
    requires |fs.disk| == 8
    ensures var s := Sample(fs, m, d, deep); Owned(s.fs.disk, s.inodes, s.owner)
  {
    var s := Sample(fs, m, d, deep);
    forall k, t | 0 <= k < 9
      ensures At(s.fs.disk, s.inodes[k], t) ==
        if k == 2 && t == Direct(0) then 3 else if k == 3 && deep && t == Single then 4
        else if k == 3 && deep && t == SingleEntry(0) then 5 else 0
    {
      PointersOf(s.fs.disk, s.inodes[k], t);
    }
    hide At;
  }

  /** The pointers of an inode that has at most a direct and a single-indirect one. */
  lemma PointersOf(disk: seq<Block>, ino: Inode, t: Slot)
    requires |disk| == 8 && disk[4] == PutLe32(Zeros(0x400), 0, 5) && forall i :: 0 < i < 15 && i != 12 ==>
      ino.ptr[i] == 0
    requires ino.ptr[12] == 0 || ino.ptr[12] == 4
    ensures At(disk, ino, t) ==
      if t == Direct(0) then ino.ptr[0] else if t == Single then ino.ptr[12]
      else if t == SingleEntry(0) && ino.ptr[12] == 4 then 5 else 0
  {
  }

  lemma SampleSound(fs: Fs, m: nat, d: Block)
    requires fs.geo == GEOMETRY && fs.Sound(Used(m), RESERVED) && |d| == 0x400
    ensures |fs.disk| == 8 && Disk(fs, d).Sound(Used(m), RESERVED)
  {
    hide Fs.Sound, Used, PutLe32;
    fs.SoundFacts(Used(m), RESERVED);
    fs.WriteSound(3, d, Used(m), RESERVED);
    var one := fs.(disk := fs.disk[3 := d]);
    one.WriteSound(4, PutLe32(Zeros(0x400), 0, 5), Used(m), RESERVED);
    assert one.(disk := one.disk[4 := PutLe32(Zeros(0x400), 0, 5)]) == Disk(fs, d);
  }

  /** A valid volume for every boot block and every directory block. */
  lemma Built(boot: Block, d: Block, m: nat, deep: bool) returns (s: State)
    requires |boot| == |d| == 0x400 && (if deep then 6 else 4) <= m <= 8
    ensures s.Valid(RESERVED) && Indexed(s) && s.fs.sb == Counters(8 - m, 6) && s.used == Used(m)
    ensures s.fs.geo == GEOMETRY
    ensures |s.inodes| == 9 && s.inodes[2] == DIRECTORY && s.inodes[3] == SPARSE.(ptr := s.inodes[3].ptr)
    ensures s.inodes[3].ptr == if deep then NO_POINTERS[12 := 4] else NO_POINTERS
    ensures s.fs.disk[0] == boot && s.fs.disk[3] == d && (deep ==> 4 in s.owner && s.owner[4] == Ref(3, Single))
    ensures BitSet(s.fs.disk[1], 8) && s.fs.groups[0].blockBitmap == 1
  {
    hide Fs.Sound, Owned;
    var fs := Formatting(boot, m);
    SampleSound(fs, m, d);
    s := Sample(fs, m, d, deep);
    SampleOwned(fs, m, d, deep);
    forall n | s.fs.geo.InRange(Inodes, n) ensures 0 < n < 9 {
      var geo := s.fs.geo;
      var g: nat, i: nat :| g < geo.numGroups && i < geo.Units(Inodes, g) && n == geo.Number(Inodes, g, i);
    }
  }

  lemma DirectoryBytes(s: State, d: Block)
    requires |s.inodes| == 9 && s.inodes[2] == DIRECTORY && s.fs.geo == GEOMETRY && |s.fs.disk| == 8
    requires s.fs.disk[3] == d && |d| == 0x400
    ensures Whole(s, 2) && FileBytes(s, 2) == d
  {
    assert SlotOf(0x400, 0) == Direct(0) && Where(s, 2, 0) == 3;
    assert AllMapped(s, 2, 0, 1);
    forall p | 0 <= p < 0x400 ensures ByteAt(s, 2, p) == d[p] {
    }
    hide ByteAt, Where;
  }

  // ----- a volume on which the operations work

  const A: Dir.Name := [97]

  /** The root directory holds its own entry and has room; this is where a file can be created,
      written and deleted. */
  lemma Formatted() returns (s: State)
    ensures s.Valid(RESERVED) && Indexed(s) && s.fs.sb == Counters(4, 6) && 2 in s.used.inodes && |s.inodes| == 9
    ensures Directory(s, 2) && IsDir(s.inodes[2]) && s.inodes[2].size + s.fs.geo.blockSize < 0x8000_0000
    ensures Entries(s, 2) == [Dir.Entry(DOT, 2, 2)] && A !in Dir.Names(Entries(s, 2)) && HasRoom(s, 2, A)
  {
    hide State.Valid, Indexed, Dir.NewBlock, FileBytes, Dir.Tiled, Dir.Live, Dir.Room, Whole, BitSet, Zeros;
    var d := Dir.NewBlock(0x400, 2, DOT, 2);
    NewDirectory(d);
    s := Built(Zeros(0x400), d, 4, false);
    ShapeOf(s);
    DirectoryBytes(s, d);
    assert |A| == 1 && A != DOT;
  }

  lemma ShapeOf(s: State)
    requires s.Valid(RESERVED) && s.fs.geo == GEOMETRY
    ensures |s.fs.disk| == 8
  {
  }

  lemma NewDirectory(d: seq<byte>)
    requires d == Dir.NewBlock(0x400, 2, DOT, 2)
    ensures |d| == 0x400 && d[0] == 2 && Dir.Tiled(d, 0) && Dir.Live(d, 0) == [Dir.Entry(DOT, 2, 2)]
    ensures Dir.Room(d, 0, Dir.EntrySize(1))
  {
    hide Dir.NewBlock, Dir.PutEntry, Dir.Live, Dir.Room, Dir.Tiled;
    NewRecord(d);
    NoEntries();
    Dir.Appended([], 0x400, 2, DOT, 2);
    assert [] + d == d;
    assert Dir.Tiled(d, 0) && Dir.Live(d, 0) == [Dir.Entry(DOT, 2, 2)];
    RoomAhead(d);
  }

  lemma NoEntries()
    ensures Dir.Tiled([], 0) && Dir.Live([], 0) == []
  {
  }

  lemma RoomAhead(d: seq<byte>)
    requires Dir.Tiled(d, 0) && |d| == 0x400 && Dir.RecLen(d, 0) == 0x400 && Dir.NameLen(d, 0) == 1
    ensures Dir.Room(d, 0, Dir.EntrySize(1))
  {
  }

  lemma NewRecord(d: seq<byte>)
    requires d == Dir.NewBlock(0x400, 2, DOT, 2)
    ensures |d| == 0x400 && d[0] == 2 && Dir.RecLen(d, 0) == 0x400 && Dir.NameLen(d, 0) == 1
  {
    hide Dir.PutEntry;
  }

  // ----- volumes on which an operation goes wrong

  /** With a boot block whose first word is 3, block 12 of the sparse file, a hole behind a missing
      pointer block, reads as the root directory. */
  lemma HoleReadsBootBlock() returns (s: State)
    ensures s.Valid(RESERVED) && PerBlock(s.fs.geo.blockSize) > 0 && 3 < |s.inodes| && 0x3000 < s.inodes[3].size
    ensures Where(s, 3, BlockOf(s.fs.geo.blockSize, 0x3000)) == 0 && ByteAt(s, 3, 0x3000) == 0
    ensures ReaderByte(s.fs.disk, s.fs.geo.blockSize, s.inodes[3], 0x3000) == 2
  {
    hide State.Valid, Indexed, Dir.NewBlock, Dir.Tiled, Dir.Live, Dir.Room, Used, BitSet, PutLe32;
    var d := Dir.NewBlock(0x400, 2, DOT, 2);
    NewDirectory(d);
    s := Built(PutLe32(Zeros(0x400), 0, 3), d, 4, false);
    ShapeOf(s);
    FirstHole(s.fs.disk, s.inodes[3]);
  }

  lemma FirstHole(disk: seq<Block>, ino: Inode)
    requires |disk| == 8 && |disk[0]| == 0x400 && Le32(disk[0], 0) == 3 && ino.ptr[12] == 0 && |disk[3]| == 0x400
    ensures BlockOf(0x400, 0x3000) == 12 && Within(0x400, 0x3000) == 0 && Mapped(disk, 0x400, ino, 12) == 0
    ensures ReaderByte(disk, 0x400, ino, 0x3000) == disk[3][0]
  {
    assert SlotOf(0x400, 12) == SingleEntry(0);
  }

  /** Block 8 is behind the end of the device; freeing it is not refused and breaks the accounting. */
  lemma PaddingFreed() returns (s: State)
    ensures s.Valid(RESERVED) && s.fs.Shape() && s.fs.Counted() && s.fs.Padding(Blocks, 8)
    ensures s.fs.CanSwitch(Blocks, 0, 8, false) && s.fs.Switched(Blocks, 0, 8, false).Shape()
    ensures !s.fs.Switched(Blocks, 0, 8, false).Counted()
  {
    hide State.Valid, Fs.Sound, Fs.Counted, Used, Zeros, Indexed;
    s := Built(Zeros(0x400), Zeros(0x400), 4, false);
    ValidIsSound(s, RESERVED);
    s.fs.SoundShape(s.used, RESERVED);
    assert s.fs.geo.Position(Blocks, 8) == (0, 8) && s.fs.geo.Units(Blocks, 0) == 8;
    s.fs.Freeing(Blocks, 8, 0, 8, s.used, RESERVED);
  }

  /** A directory block of two records with long names and no gap for another one. */
  function Full(): Block {
    seq(0x400, i requires 0 <= i < 0x400 =>
      var j := i % 0x200; if j == 0 || j == 5 then 2 else if j == 6 then 255 else if 0 < j < 8 then 0 else 65)
  }

  lemma FullIsFull()
    ensures Dir.Tiled(Full(), 0) && !Dir.Room(Full(), 0, 264) && Dir.EntrySize(255) == 264
  {
    var d := Full();
    assert Dir.RecLen(d, 0) == 0x200 && Dir.NameLen(d, 0) == 255 && Dir.Next(d, 0) == 0x200;
    assert Dir.RecLen(d, 0x200) == 0x200 && Dir.NameLen(d, 0x200) == 255 && Dir.Next(d, 0x200) == 0x400;
    assert Dir.Tiled(d, 0x200);
  }

  const LONG: Dir.Name := seq(255, _ => 97)

  /** The directory is full and one block is free: growing takes that block, leaks it, has none left
      to link, and still reports success for a directory that is no longer tiled. */
  lemma GrowthWithoutBlocks() returns (s: State)
    ensures s.Valid(RESERVED) && Directory(s, 2) && !HasRoom(s, 2, LONG) && s.fs.sb.freeBlocks == 1 && !CanGrow(s, 2)
    ensures forall b, e, leak, r :: Grown(s, b, 2, e, leak, r) ==>
      && r == 0 && leak !in b.owner
      && 2 < |b.inodes| && PerBlock(b.fs.geo.blockSize) > 0 && !Dir.Tiled(FileBytes(b, 2), 0)
  {
    hide State.Valid, Indexed, FileBytes, Dir.Tiled, Dir.Room, Dir.Live, Dir.EntrySize, Whole, CanGrow, Grown, Full,
      Used, BitSet, Zeros;
    FullIsFull();
    s := Built(Zeros(0x400), Full(), 7, false);
    ShapeOf(s);
    DirectoryBytes(s, Full());
    NoneToLink(s);
    forall b, e, leak, r | Grown(s, b, 2, e, leak, r)
      ensures r == 0 && leak !in b.owner && 2 < |b.inodes| && PerBlock(b.fs.geo.blockSize) > 0
      ensures !Dir.Tiled(FileBytes(b, 2), 0)
    {
      GrowthLost(s, b, e, leak, r);
    }
  }

  lemma NoneToLink(s: State)
    requires |s.inodes| == 9 && s.fs.geo == GEOMETRY && s.inodes[2] == DIRECTORY && s.fs.sb.freeBlocks == 1
    ensures !CanGrow(s, 2)
  {
    assert GrowthBlock(0x400, 0x400) == 1;
    assert PathOf(0x400, 1) == [Direct(1)];
    MissingOne(s, 2, Direct(1));
  }

  lemma GrowthLost(s: State, b: State, e: Dir.Entry, leak: nat, r: int)
    requires Grown(s, b, 2, e, leak, r) && s.fs.geo == GEOMETRY && s.inodes[2] == DIRECTORY && !CanGrow(s, 2)
    ensures r == 0 && leak !in b.owner && 2 < |b.inodes| && PerBlock(b.fs.geo.blockSize) > 0
    ensures !Dir.Tiled(FileBytes(b, 2), 0)
  {
    hide CanGrow, FileBytes, Dir.Tiled, Dir.Torn, Overhang, Dir.Live;
    assert Overhang(0x400, 0x400) == 0;
    Dir.TornTiles(0x400, e.inode, e.name, e.kind, 0);
  }

  /** Deleting the thirteen-block file frees its inode and leaves its pointer block and its thirteenth
      block marked. */
  lemma IndirectBlocksLeak() returns (s: State)
    ensures s.Valid(RESERVED) && 3 in s.used.inodes && 4 in s.owner && s.owner[4].file == 3
    ensures forall b :: Released(s, b, 3) ==>
      3 !in b.used.inodes && 4 in b.used.blocks && 5 in b.used.blocks && 4 in b.owner
  {
    s := Built(Zeros(0x400), Zeros(0x400), 6, true);
    assert DirectBlocks(s.inodes[3], 12) <= {0};
    hide State.Valid, Indexed, OtherFiles, DirectBlocks;
  }
}
