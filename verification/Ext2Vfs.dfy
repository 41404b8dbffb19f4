/** The file-system operations over directories: lookup, listing, entry insertion and removal. */
module Ext2Vfs {
  import opened Basics
  import opened Ext2Bytes
  import opened Ext2Tree
  import opened Ext2Volume
  import opened Ext2Files
  import opened Ext2Data
  import opened Ext2Io
  import Dir = Ext2Dir
  import Arith

  // ----- whole files

  /** The contents of file `k`. */
  function FileBytes(s: State, k: nat): (d: seq<byte>)
    requires k < |s.inodes| && PerBlock(s.fs.geo.blockSize) > 0
    ensures |d| == s.inodes[k].size && forall i :: 0 <= i < |d| ==> d[i] == ByteAt(s, k, i)
  {
    seq<byte>(s.inodes[k].size, i requires 0 <= i => ByteAt(s, k, i))
  }

  /** File `k` has no holes and its size is a positive int. */
  ghost predicate Whole(s: State, k: nat) {
    && k < |s.inodes| && PerBlock(s.fs.geo.blockSize) > 0
    && s.inodes[k].size < 0x8000_0000 && Backed(s, k, 0, s.inodes[k].size)
  }

  /** A directory: whole, and tiled by records. */
  ghost predicate Directory(s: State, k: nat) {
    Whole(s, k) && Dir.Tiled(FileBytes(s, k), 0)
  }

  ghost function Entries(s: State, k: nat): seq<Dir.Entry>
    requires Directory(s, k)
  {
    Dir.Live(FileBytes(s, k), 0)
  }

  lemma WholeReads(s: State, reserved: set<nat>, k: nat)
    requires s.Valid(reserved) && Whole(s, k)
    ensures ReadSize(s.inodes[k].size, 0, s.inodes[k].size) == s.inodes[k].size
    ensures Readable(s.fs.disk, s.fs.geo.blockSize, s.inodes[k], 0, s.inodes[k].size)
    ensures ReaderBytes(s.fs.disk, s.fs.geo.blockSize, s.inodes[k], 0, s.inodes[k].size) == FileBytes(s, k)
    ensures s.fs.disk != [] && forall b :: 0 <= b < |s.fs.disk| ==> |s.fs.disk[b]| == s.fs.geo.blockSize
  {
    hide Fs.Sound;
    forall p | 0 <= p < s.inodes[k].size
      ensures ReaderBlock(s.fs.disk, s.fs.geo.blockSize, s.inodes[k], BlockOf(s.fs.geo.blockSize, p)) < |s.fs.disk|
      ensures ReaderByte(s.fs.disk, s.fs.geo.blockSize, s.inodes[k], p) == ByteAt(s, k, p)
    {
      BackedBlock(s, k, 0, s.inodes[k].size, p);
      MappedChain(s, k, BlockOf(s.fs.geo.blockSize, p));
      ReaderSees(s, reserved, k, p);
      hide State.Valid, ReaderByte, ReaderBlock, ByteAt, Backed;
    }
    s.fs.SoundFacts(s.used, reserved);
    hide ReaderByte, ReaderBlock, ByteAt, Backed;
  }

  method ReadAll(v: Volume, k: nat) returns (d: seq<byte>)
    requires v.Valid() && Whole(v.Now(), k)
    ensures d == FileBytes(v.Now(), k)
  {
    hide State.Valid, ReaderBytes, FileBytes, Readable;
    WholeReads(v.Now(), v.reserved, k);
    var r, out := ReadInodeData(v.fs.disk, v.fs.geo.blockSize, v.inodes[k], 0, v.inodes[k].size);
    return out;
  }

  /** File `k` now holds `d`, of the same length, in the same blocks. */
  ghost predicate Rewritten(a: State, b: State, k: nat, d: seq<byte>) {
    && Whole(a, k) && Whole(b, k) && FileBytes(b, k) == d && SameTree(a, b, k) && Extended(a, b, k)
    && OthersKept(a, b, k)
  }

  lemma WroteWhole(a: State, b: State, k: nat, d: seq<byte>)
    requires k < |a.inodes| && PerBlock(a.fs.geo.blockSize) > 0 && d != [] && |d| < 0x8000_0000
    requires Wrote(a, b, k, 0, d, |d|) && a.inodes[k].size <= |d|
    ensures Whole(b, k) && FileBytes(b, k) == d
  {
    assert d[..|d|] == d;
    hide Extent, ByteAt, Backed, Extended, OthersKept;
  }

  lemma WroteInPlace(a: State, b: State, k: nat, d: seq<byte>, n: nat)
    requires Whole(a, k) && |d| == a.inodes[k].size > 0 && Wrote(a, b, k, 0, d, n)
    ensures n == |d| && Rewritten(a, b, k, d)
  {
    hide Extended, OthersKept, Overlaid, SameTree, ByteAt, AllMapped, CanReach;
    WroteWhole(a, b, k, d);
  }

  method Rewrite(v: Volume, k: nat, d: seq<byte>) returns (r: int)
    requires v.Valid() && Whole(v.Now(), k) && |d| == v.inodes[k].size > 0 && |v.table| == |v.inodes|
    modifies v`fs, v`used, v`inodes, v`owner, v`table
    ensures v.Valid() && Rewritten(old(v.Now()), v.Now(), k, d) && r == |d|
    ensures |v.inodes| == |old(v.inodes)| && v.table == old(v.table)[k := v.inodes[k]]
  {
    ghost var n;
    ghost var a := v.Now();
    WholeFacts(a, k);
    hide State.Valid, Whole, Wrote, Rewritten;
    r, n := WriteInodeData(v, k, 0, d);
    WroteInPlace(a, v.Now(), k, d, n);
  }

  lemma WholeFacts(s: State, k: nat)
    requires Whole(s, k)
    ensures k < |s.inodes| && s.inodes[k].size < 0x8000_0000 && PerBlock(s.fs.geo.blockSize) > 0
  {
  }

  // ----- directory entries

  /** ext2_vfs_finddir. */
  method FindNode(v: Volume, k: nat, name: Dir.Name) returns (ino: u32)
    requires v.Valid() && Directory(v.Now(), k)
    ensures ino == Dir.Lookup(Entries(v.Now(), k), name)
  {
    hide State.Valid, Whole, FileBytes, Dir.Tiled, Dir.Live, Dir.Lookup;
    var d := ReadAll(v, k);
    ino := Dir.FindDir(d, name);
  }

  /** ext2_vfs_readdir. */
  method ListNode(v: Volume, k: nat, index: nat) returns (r: Option<Dir.Entry>)
    requires v.Valid() && Directory(v.Now(), k)
    ensures r == if index < |Entries(v.Now(), k)| then Some(Entries(v.Now(), k)[index]) else None
  {
    hide State.Valid, Whole, FileBytes, Dir.Tiled, Dir.Live;
    var d := ReadAll(v, k);
    r := Dir.ReadDir(d, index);
  }

  /** What removing `name` from directory `k` did: one entry `e` fewer, in the same blocks. */
  ghost predicate Dropped(a: State, b: State, k: nat, name: Dir.Name, pre: seq<Dir.Entry>, e: Dir.Entry,
                          post: seq<Dir.Entry>) {
    && Directory(a, k) && Whole(b, k) && Rewritten(a, b, k, FileBytes(b, k))
    && Dir.Removal(FileBytes(a, k), name, FileBytes(b, k), pre, e, post)
  }

  /** ext2_remove_dir_entry. */
  method RemoveDirEntry(v: Volume, k: nat, name: Dir.Name)
    returns (r: int, ghost pre: seq<Dir.Entry>, ghost e: Dir.Entry, ghost post: seq<Dir.Entry>)
    requires v.Valid() && Directory(v.Now(), k) && |v.table| == |v.inodes|
    modifies v`fs, v`used, v`inodes, v`owner, v`table
    ensures v.Valid() && |v.inodes| == |old(v.inodes)|
    ensures r == var n := Dir.Lookup(Entries(old(v.Now()), k), name);
      if 0 < |name| < 0x100 && 0 < n < 0x8000_0000 then n else -1
    ensures r == -1 ==> v.Now() == old(v.Now()) && v.table == old(v.table)
    ensures r != -1 ==> Dropped(old(v.Now()), v.Now(), k, name, pre, e, post) && e.inode == r
    ensures r != -1 ==> k < |v.inodes| && v.table == old(v.table)[k := v.inodes[k]]
  {
    hide State.Valid, Whole, FileBytes, Dir.Tiled, Dir.Live, Dir.Lookup, Dir.Removal, Rewritten;
    ghost var a := v.Now();
    WholeFacts(a, k);
    var d := ReadAll(v, k);
    var d';
    r, d', pre, e, post := Dir.RemoveEntry(d, name);
    if r < 0 {
      return;
    }
    RemovalNonEmpty(d, name, d', pre, e, post);
    var w := Rewrite(v, k, d');
    RewrittenFacts(a, v.Now(), k, d');
  }

  lemma RemovalNonEmpty(d: seq<byte>, name: Dir.Name, d': seq<byte>, pre: seq<Dir.Entry>, e: Dir.Entry,
                        post: seq<Dir.Entry>)
    requires Dir.Removal(d, name, d', pre, e, post)
    ensures d != [] && |d'| == |d|
  {
    assert |Dir.Live(d, 0)| == |pre| + 1 + |post|;
  }

  lemma RewrittenFacts(a: State, b: State, k: nat, d: seq<byte>)
    requires Rewritten(a, b, k, d)
    ensures Whole(b, k) && k < |b.inodes| && FileBytes(b, k) == d
  {
  }

  // ----- adding an entry

  /** The longest prefix of `name` that fits the 8-bit length field. */
  function Truncated(name: Dir.Name): (r: Dir.Name)
    ensures |r| < 0x100 && r <= name && (r != name ==> |r| == 0xFF)
  {
    if |name| > 255 then name[..255] else name
  }

  /** Every file but `t` keeps its pointers and its bytes. */
  ghost predicate OtherFiles(a: State, b: State, t: nat) {
    && b.fs.geo == a.fs.geo && |b.inodes| == |a.inodes| && PerBlock(a.fs.geo.blockSize) > 0
    && (forall h :: 0 <= h < |a.inodes| && h != t ==> b.inodes[h] == a.inodes[h])
    && (forall h, s {:trigger a.Get(h, s)} {:trigger b.Get(h, s)} ::
          0 <= h < |a.inodes| && h != t ==> b.Get(h, s) == a.Get(h, s))
    && (forall h, i: nat {:trigger Blk(a, h, i)} {:trigger Blk(b, h, i)} ::
          0 <= h < |a.inodes| && h != t ==> Blk(b, h, i) == Blk(a, h, i))
  }

  lemma OtherFilesTwice(a: State, b: State, c: State, t: nat)
    requires OtherFiles(a, b, t) && OtherFiles(b, c, t)
    ensures OtherFiles(a, c, t)
  {
    forall h, s | 0 <= h < |a.inodes| && h != t ensures c.Get(h, s) == a.Get(h, s) {
      assert b.Get(h, s) == a.Get(h, s);
    }
    forall h, i: nat | 0 <= h < |a.inodes| && h != t ensures Blk(c, h, i) == Blk(a, h, i) {
      assert Blk(b, h, i) == Blk(a, h, i);
    }
    hide State.Get, Blk;
  }

  /** A block taken and not linked anywhere: trees and contents are as before. */
  lemma Leaked(a: State, b: State, reserved: set<nat>, n: u32)
    requires a.Valid(reserved) && Grabbed(a, b, reserved, n) && PerBlock(a.fs.geo.blockSize) > 0
    ensures b.Valid(reserved)
    ensures forall h, s :: 0 <= h < |a.inodes| ==> b.Get(h, s) == a.Get(h, s)
    ensures forall h, i: nat :: 0 <= h < |a.inodes| ==> Blk(b, h, i) == Blk(a, h, i)
  {
    hide Fs.Sound;
    PointersKept(a.fs.disk, b.fs.disk, a.inodes, a.owner);
    forall h, i: nat | 0 <= h < |a.inodes| ensures Blk(b, h, i) == Blk(a, h, i) {
      var bs := a.fs.geo.blockSize;
      if i < Limit(bs) {
        var at := a.Get(h, SlotOf(bs, i));
        assert at != 0 ==> at in a.owner && at !in reserved;
      }
    }
  }

  /** The logical block a directory of `size` bytes grows into. */
  function GrowthBlock(bs: nat, size: nat): nat
    requires bs > 0
  {
    BlockOf(bs, size + bs - 1)
  }

  /** There is a block to spare besides those the new logical block needs. */
  ghost predicate CanGrow(s: State, k: nat)
    requires k < |s.inodes| && PerBlock(s.fs.geo.blockSize) > 0
  {
    var last := GrowthBlock(s.fs.geo.blockSize, s.inodes[k].size);
    last < Limit(s.fs.geo.blockSize) && Missing(s, k, PathOf(s.fs.geo.blockSize, last)) < s.fs.sb.freeBlocks
  }

  /** The state in which the grown directory is written: block `nb` leaked, the size raised. */
  ghost predicate Raised(a: State, m: State, reserved: set<nat>, k: nat, nb: nat) {
    && k < |a.inodes| && OtherFiles(a, m, k) && m.Valid(reserved)
    && m.inodes[k].size == a.inodes[k].size + a.fs.geo.blockSize
    && a.fs.sb.freeBlocks > 0 && m.fs.sb.freeBlocks == a.fs.sb.freeBlocks - 1
    && nb !in a.used.blocks && m.used == a.used.Switched(Blocks, nb, true) && nb !in a.owner && m.owner == a.owner
    && (forall s :: m.Get(k, s) == a.Get(k, s)) && forall i: nat :: Blk(m, k, i) == Blk(a, k, i)
  }

  lemma {:induction false} SameGetsMissing(a: State, m: State, k: nat, path: seq<Slot>)
    requires k < |a.inodes| == |m.inodes| && forall s :: m.Get(k, s) == a.Get(k, s)
    ensures Missing(m, k, path) == Missing(a, k, path)
  {
    if path != [] {
      SameGetsMissing(a, m, k, path[..|path| - 1]);
    }
  }

  lemma GrowthArith(bs: nat, size: nat)
    requires bs > 0
    ensures size > 0 ==> GrowthBlock(bs, size) == BlockOf(bs, size - 1) + 1
    ensures size == 0 ==> GrowthBlock(bs, size) == 0
    ensures BlockOf(bs, 0) == 0
  {
    if size > 0 {
      Arith.DivMod(size - 1, bs);
      assert ((size - 1) / bs + 1) * bs == (size - 1) / bs * bs + bs;
      Arith.Split(bs, (size - 1) / bs + 1, (size - 1) % bs, size + bs - 1);
    } else {
      Arith.Split(bs, 0, bs - 1, bs - 1);
    }
    Arith.Split(bs, 0, 0, 0);
  }

  lemma OldBlocks(a: State, nb: nat, m: State, reserved: set<nat>, k: nat)
    requires Whole(a, k) && Raised(a, m, reserved, k, nb)
    ensures AllMapped(m, k, 0, GrowthBlock(a.fs.geo.blockSize, a.inodes[k].size))
  {
    hide State.Valid;
    var bs, size := a.fs.geo.blockSize, a.inodes[k].size;
    GrowthArith(bs, size);
    forall i: nat | i < GrowthBlock(bs, size) ensures Where(m, k, i) != 0 {
      assert Where(a, k, i) != 0;
      assert m.Get(k, SlotOf(bs, i)) == a.Get(k, SlotOf(bs, i));
    }
  }

  /** Growth completes exactly when the volume can grow the directory. */
  lemma GrowthDecided(a: State, nb: nat, m: State, c: State, reserved: set<nat>, k: nat, d: seq<byte>, n: nat)
    requires Whole(a, k) && Raised(a, m, reserved, k, nb) && |d| == m.inodes[k].size && Wrote(m, c, k, 0, d, n)
    ensures n == |d| <==> CanGrow(a, k)
  {
    hide State.Valid, Extended, Overlaid, OthersKept, Backed, BlockOf, AllMapped, SameTree, SameTops, Where, Limit;
    var bs := a.fs.geo.blockSize;
    var last := GrowthBlock(bs, a.inodes[k].size);
    GrowthArith(bs, a.inodes[k].size);
    OldBlocks(a, nb, m, reserved, k);
    SameGetsMissing(a, m, k, PathOf(bs, last));
    assert |d| > 0 && BlockOf(bs, 0 + |d| - 1) == last;
  }

  lemma GrewWhole(a: State, nb: nat, m: State, c: State, reserved: set<nat>, k: nat, d: seq<byte>, e: Dir.Entry)
    requires Directory(a, k) && Raised(a, m, reserved, k, nb) && |e.name| < 0x100 && e.inode != 0
    requires Dir.EntrySize(|e.name|) <= a.fs.geo.blockSize < 0x1_0000
    requires a.inodes[k].size + a.fs.geo.blockSize < 0x8000_0000
    requires d == FileBytes(a, k) + Dir.NewBlock(a.fs.geo.blockSize, e.inode, e.name, e.kind)
    requires |d| == m.inodes[k].size && Wrote(m, c, k, 0, d, |d|)
    ensures Directory(c, k) && Entries(c, k) == Entries(a, k) + [e]
  {
    hide State.Valid, Wrote, FileBytes, Dir.Tiled, Dir.Live, Dir.NewBlock, Dir.EntrySize;
    Dir.Appended(FileBytes(a, k), a.fs.geo.blockSize, e.inode, e.name, e.kind);
    WroteWhole(m, c, k, d);
  }

  /** How much of the new block still fits the blocks the directory has. */
  function Overhang(bs: nat, size: nat): (h: nat)
    requires bs > 0
    ensures h < bs && (size % bs == 0 ==> h == 0)
  {
    GrowthEnd(bs, size);
    GrowthBlock(bs, size) * bs - size
  }

  lemma GrowthEnd(bs: nat, size: nat)
    requires bs > 0
    ensures size <= GrowthBlock(bs, size) * bs < size + bs
    ensures size % bs == 0 ==> GrowthBlock(bs, size) * bs == size
  {
    Arith.DivMod(size + bs - 1, bs);
    if size % bs == 0 {
      Arith.DivMod(size, bs);
      Arith.Split(bs, size / bs, bs - 1, size + bs - 1);
    }
  }

  /** What the new block of directory `k` reads as if the volume cannot grow it. */
  function TornTail(a: State, k: nat, e: Dir.Entry): (t: seq<byte>)
    requires k < |a.inodes| && a.fs.geo.blockSize > 0
    requires Dir.EntrySize(|e.name|) <= a.fs.geo.blockSize < 0x1_0000 && |e.name| < 0x100
  {
    Dir.Torn(a.fs.geo.blockSize, e.inode, e.name, e.kind, Overhang(a.fs.geo.blockSize, a.inodes[k].size))
  }

  /** For the block sizes of ext2 such a directory is tiled exactly if at least six bytes of the new
      record fell into its old last block, never if it was whole blocks long, and it has the new entry
      if the whole name did. */
  lemma TornDirectory(a: State, k: nat, e: Dir.Entry, f: seq<byte>)
    requires Directory(a, k) && 0x400 <= a.fs.geo.blockSize < 0x1_0000 && a.fs.geo.blockSize % 0x100 == 0
    requires |e.name| < 0x100 && e.inode != 0 && Dir.EntrySize(|e.name|) <= a.fs.geo.blockSize
    requires f == FileBytes(a, k) + TornTail(a, k, e)
    ensures var h := Overhang(a.fs.geo.blockSize, a.inodes[k].size);
      && (Dir.Tiled(f, 0) <==> h >= 6) && (h >= 8 + |e.name| ==> Dir.Live(f, 0) == Entries(a, k) + [e])
      && (a.inodes[k].size % a.fs.geo.blockSize == 0 ==> !Dir.Tiled(f, 0))
  {
    WholeFacts(a, k);
    hide FileBytes, Dir.Tiled, Dir.Live, Whole, Dir.EntrySize, Dir.Torn;
    var bs := a.fs.geo.blockSize;
    Dir.TornTiles(bs, e.inode, e.name, e.kind, Overhang(bs, a.inodes[k].size));
    Dir.Extended(FileBytes(a, k), TornTail(a, k, e));
  }

  /** A growth that runs out of blocks still raised the size: the directory ends in a hole, with only
      the part of the new record in front of it that fell into the old last block. */
  lemma GrewTorn(a: State, nb: nat, m: State, c: State, reserved: set<nat>, k: nat, d: seq<byte>, e: Dir.Entry, n: nat)
    requires Directory(a, k) && Raised(a, m, reserved, k, nb) && |e.name| < 0x100
    requires Dir.EntrySize(|e.name|) <= a.fs.geo.blockSize < 0x1_0000
    requires d == FileBytes(a, k) + Dir.NewBlock(a.fs.geo.blockSize, e.inode, e.name, e.kind)
    requires |d| == m.inodes[k].size && Wrote(m, c, k, 0, d, n) && n < |d|
    ensures k < |c.inodes| && PerBlock(c.fs.geo.blockSize) > 0
    ensures FileBytes(c, k) == FileBytes(a, k) + TornTail(a, k, e)
  {
    hide FileBytes, Dir.Tiled, Dir.NewBlock, Dir.EntrySize, State.Valid, Whole, Wrote, Raised, Overhang, GrowthBlock,
      Dir.Torn, Where, BlockOf;
    WroteFacts(m, c, k, d, n);
    RaisedFacts(a, nb, m, reserved, k);
    HoleAt(a, nb, m, c, reserved, k, d, n);
    OverhangIs(a.fs.geo.blockSize, a.inodes[k].size);
    forall p | 0 <= p < |d| ensures FileBytes(c, k)[p] == if p < n then d[p] else 0 {
      LostByte(m, c, k, d, n, p);
    }
    var h := Overhang(a.fs.geo.blockSize, a.inodes[k].size);
    TornBytes(FileBytes(c, k), d, FileBytes(a, k), a.fs.geo.blockSize, e, h);
  }

  lemma OverhangIs(bs: nat, size: nat)
    requires bs > 0
    ensures Overhang(bs, size) == GrowthBlock(bs, size) * bs - size
  {
  }

  lemma TornBytes(f: seq<byte>, d: seq<byte>, x: seq<byte>, bs: nat, e: Dir.Entry, h: nat)
    requires Dir.EntrySize(|e.name|) <= bs < 0x1_0000 && |e.name| < 0x100 && h <= bs
    requires |f| == |d| && d == x + Dir.NewBlock(bs, e.inode, e.name, e.kind) && |d| == |x| + bs
    requires forall p :: 0 <= p < |d| ==> f[p] == if p < |x| + h then d[p] else 0
    ensures f == x + Dir.Torn(bs, e.inode, e.name, e.kind, h)
  {
    hide Dir.NewBlock, Dir.EntrySize;
  }

  /** The write stopped at the first byte of the new logical block, which is still a hole. */
  lemma HoleAt(a: State, nb: nat, m: State, c: State, reserved: set<nat>, k: nat, d: seq<byte>, n: nat)
    requires Whole(a, k) && Raised(a, m, reserved, k, nb)
    requires |d| == m.inodes[k].size && Wrote(m, c, k, 0, d, n) && n < |d|
    ensures c.fs.geo == a.fs.geo && k < |c.inodes| && |d| == c.inodes[k].size
    ensures n == GrowthBlock(a.fs.geo.blockSize, a.inodes[k].size) * a.fs.geo.blockSize
    ensures forall p :: n <= p < |d| ==> Where(c, k, BlockOf(a.fs.geo.blockSize, p)) == 0
  {
    hide State.Valid, Overlaid, OthersKept, CanGrow, OtherFiles, BlockOf, Where, Extended, Affordable, CanReach,
      SameTree, SameTops;
    var bs, size := a.fs.geo.blockSize, a.inodes[k].size;
    RaisedFacts(a, nb, m, reserved, k);
    WroteFacts(m, c, k, d, n);
    WroteSizes(m, c, k, d, n);
    GrowthArith(bs, size);
    OldBlocks(a, nb, m, reserved, k);
    MappedKept(m, c, k, 0, GrowthBlock(bs, size));
    hide GrowthBlock;
    assert Where(c, k, BlockOf(bs, n)) == 0;
    assert forall i: nat :: i < GrowthBlock(bs, size) ==> Where(c, k, i) != 0;
    assert n > 0 ==> AllMapped(c, k, 0, BlockOf(bs, n - 1) + 1);
    Between(bs, n, n, size + bs - 1);
    GrowthIs(bs, size);
    StopsAt(bs, size, n);
  }

  lemma WroteSizes(m: State, c: State, k: nat, d: seq<byte>, n: nat)
    requires Wrote(m, c, k, 0, d, n) && |d| == m.inodes[k].size
    ensures |d| == c.inodes[k].size
  {
  }

  lemma GrowthIs(bs: nat, size: nat)
    requires bs > 0
    ensures GrowthBlock(bs, size) == BlockOf(bs, size + bs - 1)
  {
  }

  /** A position whose block is not before the growth block, and whose predecessor's block is. */
  lemma StopsAt(bs: nat, size: nat, n: nat)
    requires bs > 0 && n < size + bs && BlockOf(bs, n) >= GrowthBlock(bs, size)
    requires n > 0 ==> BlockOf(bs, n - 1) != GrowthBlock(bs, size)
    ensures n == GrowthBlock(bs, size) * bs
    ensures forall p :: n <= p < size + bs ==> BlockOf(bs, p) == GrowthBlock(bs, size)
  {
    var last := GrowthBlock(bs, size);
    Arith.DivMod(size + bs - 1, bs);
    forall p | n <= p < size + bs ensures BlockOf(bs, p) == last {
      Between(bs, n, p, size + bs - 1);
    }
    if n > 0 {
      Between(bs, n - 1, n, size + bs - 1);
      Arith.DivMod(n, bs);
      Arith.DivMod(n - 1, bs);
      Arith.Lex(bs, n / bs, n % bs, last, 0);
      Arith.Lex(bs, (n - 1) / bs, (n - 1) % bs, last, 0);
    } else {
      Arith.Split(bs, 0, 0, 0);
    }
  }

  lemma Between(bs: nat, n: nat, p: nat, z: nat)
    requires bs > 0 && n <= p <= z
    ensures BlockOf(bs, n) <= BlockOf(bs, p) <= BlockOf(bs, z)
  {
    Arith.DivMod(n, bs);
    Arith.DivMod(p, bs);
    Arith.DivMod(z, bs);
    Arith.Lex(bs, p / bs, p % bs, n / bs, n % bs);
    Arith.Lex(bs, z / bs, z % bs, p / bs, p % bs);
  }

  lemma LostByte(m: State, c: State, k: nat, d: seq<byte>, n: nat, p: nat)
    requires Wrote(m, c, k, 0, d, n) && n < |d| == c.inodes[k].size && p < |d|
    requires n <= p ==> Where(c, k, BlockOf(m.fs.geo.blockSize, p)) == 0
    ensures FileBytes(c, k)[p] == if p < n then d[p] else 0
  {
    WroteFacts(m, c, k, d, n);
    hide State.Valid, Extent, OthersKept, Backed, Extended, Blk, BlockOf, ByteAt, Where;
    if n <= p {
      HoleByte(c, k, p);
    }
  }

  lemma HoleByte(s: State, k: nat, p: nat)
    requires k < |s.inodes| && PerBlock(s.fs.geo.blockSize) > 0 && Where(s, k, BlockOf(s.fs.geo.blockSize, p)) == 0
    ensures ByteAt(s, k, p) == 0
  {
  }

  /** Growth marks the blocks directory `k` gained and one more, `nb`, which no file holds: it leaks.
      No other file changed. */
  ghost predicate GrowthMarks(a: State, b: State, k: nat, nb: nat) {
    && OtherFiles(a, b, k) && b.used.inodes == a.used.inodes
    && nb !in a.used.blocks && nb in b.used.blocks && nb !in b.owner
    && b.used.blocks == a.used.blocks + {nb} + (b.owner.Keys - a.owner.Keys)
    && (forall i :: i in a.owner ==> i in b.owner && b.owner[i] == a.owner[i])
    && forall i :: i in b.owner && i !in a.owner ==> b.owner[i].file == k && i !in a.used.blocks
  }

  /** The result of growing directory `k` for entry `e`: complete exactly when the volume could grow
      it; otherwise the directory ends in a hole and is tiled exactly if the torn new block is. The call
      reports an error only if it could not even write the first block of an empty directory. */
  ghost predicate Grown(a: State, b: State, k: nat, e: Dir.Entry, nb: nat, r: int) {
    && Directory(a, k) && GrowthMarks(a, b, k, nb) && b.inodes[k].size == a.inodes[k].size + a.fs.geo.blockSize
    && (r == if CanGrow(a, k) || a.inodes[k].size > 0 then 0 else -1)
    && (CanGrow(a, k) ==> Directory(b, k) && Entries(b, k) == Entries(a, k) + [e])
    && |e.name| < 0x100 && Dir.EntrySize(|e.name|) <= a.fs.geo.blockSize < 0x1_0000
    && (!CanGrow(a, k) ==>
          && FileBytes(b, k) == FileBytes(a, k) + TornTail(a, k, e)
          && (Dir.Tiled(FileBytes(b, k), 0) <==> Dir.Tiled(TornTail(a, k, e), 0))
          && (Dir.Tiled(FileBytes(b, k), 0) ==>
                Dir.Live(FileBytes(b, k), 0) == Entries(a, k) + Dir.Live(TornTail(a, k, e), 0)))
    && (r != 0 ==> b.owner == a.owner)
  }

  lemma GrowthMarked(a: State, nb: nat, m: State, c: State, reserved: set<nat>, k: nat, d: seq<byte>, n: nat)
    requires Raised(a, m, reserved, k, nb) && |d| == m.inodes[k].size && Wrote(m, c, k, 0, d, n)
    ensures GrowthMarks(a, c, k, nb) && c.inodes[k].size == a.inodes[k].size + a.fs.geo.blockSize
  {
    hide State.Valid, Overlaid, Backed, Extent, Blk, State.Get;
    forall h, s | 0 <= h < |a.inodes| && h != k ensures c.Get(h, s) == a.Get(h, s) {
      assert m.Get(h, s) == a.Get(h, s);
    }
    forall h, i: nat | 0 <= h < |a.inodes| && h != k ensures Blk(c, h, i) == Blk(a, h, i) {
      assert Blk(m, h, i) == Blk(a, h, i);
    }
  }

  /** Nothing could be written exactly when the directory was empty and could not grow. */
  lemma GrowthReported(a: State, nb: nat, m: State, c: State, reserved: set<nat>, k: nat, d: seq<byte>, n: nat)
    requires Whole(a, k) && Raised(a, m, reserved, k, nb) && |d| == m.inodes[k].size && Wrote(m, c, k, 0, d, n)
    requires n == |d| <==> CanGrow(a, k)
    ensures n == 0 <==> !CanGrow(a, k) && a.inodes[k].size == 0
    ensures n == 0 ==> c.owner == a.owner
  {
    hide State.Valid, Overlaid, OthersKept, CanGrow, OtherFiles, BlockOf, Where, Extended, Affordable, CanReach,
      SameTree, SameTops;
    var bs, size := a.fs.geo.blockSize, a.inodes[k].size;
    RaisedFacts(a, nb, m, reserved, k);
    WroteFacts(m, c, k, d, n);
    GrowthArith(bs, size);
    OldBlocks(a, nb, m, reserved, k);
    MappedKept(m, c, k, 0, GrowthBlock(bs, size));
    FirstBlock(bs, n);
    hide GrowthBlock;
    assert size > 0 ==> Where(c, k, 0) != 0;
    assert n > 0 ==> AllMapped(c, k, 0, BlockOf(bs, n - 1) + 1);
  }

  lemma FirstBlock(bs: nat, n: nat)
    requires bs > 0
    ensures n < bs ==> BlockOf(bs, n) == 0
    ensures 0 < n <= bs ==> BlockOf(bs, n - 1) == 0
  {
    if n < bs {
      Arith.Split(bs, 0, n, n);
    }
    if 0 < n <= bs {
      Arith.Split(bs, 0, n - 1, n - 1);
    }
  }

  lemma GrowOutcome(a: State, nb: nat, m: State, c: State, reserved: set<nat>, k: nat, d: seq<byte>, e: Dir.Entry,
                    n: nat, r: int)
    requires Directory(a, k) && Raised(a, m, reserved, k, nb) && |e.name| < 0x100 && e.inode != 0
    requires Dir.EntrySize(|e.name|) <= a.fs.geo.blockSize < 0x1_0000
    requires a.inodes[k].size + a.fs.geo.blockSize < 0x8000_0000
    requires d == FileBytes(a, k) + Dir.NewBlock(a.fs.geo.blockSize, e.inode, e.name, e.kind)
    requires |d| == m.inodes[k].size && Wrote(m, c, k, 0, d, n) && r == if n == 0 then -1 else 0
    ensures Grown(a, c, k, e, nb, r)
  {
    WroteFacts(m, c, k, d, n);
    hide State.Valid, Wrote, FileBytes, Dir.Tiled, Dir.Live, Dir.NewBlock, Dir.EntrySize, Whole, CanGrow, Raised,
      GrowthMarks;
    GrowthDecided(a, nb, m, c, reserved, k, d, n);
    GrowthReported(a, nb, m, c, reserved, k, d, n);
    GrowthMarked(a, nb, m, c, reserved, k, d, n);
    if n == |d| {
      GrewWhole(a, nb, m, c, reserved, k, d, e);
    } else {
      GrewTorn(a, nb, m, c, reserved, k, d, e, n);
      Dir.Extended(FileBytes(a, k), TornTail(a, k, e));
    }
  }

  lemma WroteFacts(m: State, c: State, k: nat, d: seq<byte>, n: nat)
    requires Wrote(m, c, k, 0, d, n)
    ensures n <= |d| && c.fs.geo == m.fs.geo && k < |c.inodes| == |m.inodes| && PerBlock(m.fs.geo.blockSize) > 0
    ensures c.used.inodes == m.used.inodes
  {
  }

  lemma RaisedState(a: State, b: State, reserved: set<nat>, k: nat, n: u32, m: State)
    requires a.Valid(reserved) && Grabbed(a, b, reserved, n) && k < |a.inodes|
    requires a.inodes[k].size + a.fs.geo.blockSize < 0x8000_0000
    requires m == b.(inodes := b.inodes[k := b.inodes[k].(size := b.inodes[k].size + b.fs.geo.blockSize)])
    ensures Raised(a, m, reserved, k, n)
  {
    BlockSizeOk(a, reserved);
    Leaked(a, b, reserved, n);
    Resized(b, reserved, k, m.inodes[k]);
    hide State.Valid, State.Get, Blk, Fs.Sound;
  }

  /** Raise the size and write the directory with its new block. */
  method WriteGrown(v: Volume, ghost a: State, ghost nb: u32, k: nat, e: Dir.Entry, d: seq<byte>) returns (r: int)
    requires a.Valid(v.reserved) && Grabbed(a, v.Now(), v.reserved, nb) && Directory(a, k) && d == FileBytes(a, k)
    requires |e.name| < 0x100 && e.inode != 0 && a.inodes[k].size + a.fs.geo.blockSize < 0x8000_0000
    requires |v.table| == |v.inodes|
    modifies v`fs, v`used, v`inodes, v`owner, v`table
    ensures v.Valid() && |v.inodes| == |old(v.inodes)| == |v.table| && Grown(a, v.Now(), k, e, nb, r)
    ensures k < |v.inodes| && v.table == if r == 0 then old(v.table)[k := v.inodes[k]] else old(v.table)
  {
    hide State.Valid, Directory, FileBytes, Grown, Grabbed, Raised, Wrote, Dir.NewBlock, Dir.EntrySize;
    DirFacts(a, v.reserved, k, e);
    ghost var b := v.Now();
    GrabbedFacts(a, b, v.reserved, nb);
    var d' := d + Dir.NewBlock(v.fs.geo.blockSize, e.inode, e.name, e.kind);
    v.inodes := v.inodes[k := v.inodes[k].(size := v.inodes[k].size + v.fs.geo.blockSize)];
    ghost var m := v.Now();
    RaisedState(a, b, v.reserved, k, nb, m);
    RaisedFacts(a, nb, m, v.reserved, k);
    ghost var n;
    r, n := WriteInodeData(v, k, 0, d');
    WroteFacts(m, v.Now(), k, d', n);
    r := if r < 0 then -1 else 0;
    GrowOutcome(a, nb, m, v.Now(), v.reserved, k, d', e, n, r);
  }

  /** The tail of ext2_add_dir_entry when no gap holds the entry. The block it allocates first is never linked. */
  method GrowDir(v: Volume, k: nat, e: Dir.Entry, d: seq<byte>) returns (r: int, ghost leak: nat)
    requires v.Valid() && Directory(v.Now(), k) && d == FileBytes(v.Now(), k) && |v.table| == |v.inodes|
    requires |e.name| < 0x100 && e.inode != 0 && v.inodes[k].size + v.fs.geo.blockSize < 0x8000_0000
    modifies v`fs, v`used, v`inodes, v`owner, v`table
    ensures v.Valid() && |v.inodes| == |old(v.inodes)| == |v.table| && (r == 0 || r == -1)
    ensures old(v.fs).sb.freeBlocks == 0 ==> r == -1 && v.Now() == old(v.Now()) && v.table == old(v.table)
    ensures old(v.fs).sb.freeBlocks > 0 ==> Grown(old(v.Now()), v.Now(), k, e, leak, r)
    ensures k < |v.inodes| && v.table == if r == 0 then old(v.table)[k := v.inodes[k]] else old(v.table)
  {
    ghost var a := v.Now();
    DirFacts(a, v.reserved, k, e);
    hide State.Valid, Directory, FileBytes, Grown, Grabbed;
    var nb := AllocBlock(v);
    if nb < 0 {
      return -1, 0;
    }
    leak := nb;
    r := WriteGrown(v, a, nb, k, e, d);
    GrownFacts(a, v.Now(), k, e, leak, r);
  }

  lemma GrownFacts(a: State, b: State, k: nat, e: Dir.Entry, nb: nat, r: int)
    requires Grown(a, b, k, e, nb, r)
    ensures r == 0 || r == -1
  {
  }

  lemma GrabbedFacts(a: State, b: State, reserved: set<nat>, n: u32)
    requires Grabbed(a, b, reserved, n)
    ensures b.fs.geo == a.fs.geo && b.inodes == a.inodes
  {
  }

  lemma RaisedFacts(a: State, nb: nat, m: State, reserved: set<nat>, k: nat)
    requires Raised(a, m, reserved, k, nb)
    ensures m.Valid(reserved) && m.fs.geo == a.fs.geo && k < |m.inodes| == |a.inodes|
    ensures m.inodes[k].size == a.inodes[k].size + a.fs.geo.blockSize
  {
  }

  lemma DirFacts(s: State, reserved: set<nat>, k: nat, e: Dir.Entry)
    requires s.Valid(reserved) && Directory(s, k) && |e.name| < 0x100
    ensures k < |s.inodes| && PerBlock(s.fs.geo.blockSize) > 0
    ensures Dir.EntrySize(|e.name|) <= s.fs.geo.blockSize < 0x1_0000
    ensures |Dir.NewBlock(s.fs.geo.blockSize, e.inode, e.name, e.kind)| == s.fs.geo.blockSize
  {
  }

  /** Some record of directory `k` has room for an entry named `name`. */
  ghost predicate HasRoom(s: State, k: nat, name: Dir.Name)
    requires Directory(s, k)
  {
    Dir.Room(FileBytes(s, k), 0, Dir.EntrySize(|Truncated(name)|))
  }

  /** Entry `e` was placed between `pre` and `post`, in the directory's own blocks. */
  ghost predicate Placed(a: State, b: State, k: nat, pre: seq<Dir.Entry>, e: Dir.Entry, post: seq<Dir.Entry>) {
    && Directory(a, k) && Directory(b, k) && Rewritten(a, b, k, FileBytes(b, k))
    && Entries(a, k) == pre + post && Entries(b, k) == pre + [e] + post
    && (e.name !in Dir.Names(Entries(a, k)) ==> Dir.MergeFits(FileBytes(b, k), 0, e.name))
  }

  /** ext2_add_dir_entry. */
  method AddDirEntry(v: Volume, k: nat, ino: u32, name: Dir.Name, kind: byte)
    returns (r: int, ghost pre: seq<Dir.Entry>, ghost post: seq<Dir.Entry>, ghost leak: nat)
    requires v.Valid() && Directory(v.Now(), k) && |v.table| == |v.inodes| && ino != 0
    requires v.inodes[k].size + v.fs.geo.blockSize < 0x8000_0000
    modifies v`fs, v`used, v`inodes, v`owner, v`table
    ensures v.Valid() && |v.inodes| == |old(v.inodes)| == |v.table| && (r == 0 || r == -1)
    ensures HasRoom(old(v.Now()), k, name) ==>
      r == 0 && Placed(old(v.Now()), v.Now(), k, pre, Dir.Entry(Truncated(name), ino, kind), post)
    ensures k < |v.inodes| && v.table == if r == 0 then old(v.table)[k := v.inodes[k]] else old(v.table)
    ensures !HasRoom(old(v.Now()), k, name) && old(v.fs).sb.freeBlocks == 0 ==>
      r == -1 && v.Now() == old(v.Now()) && v.table == old(v.table)
    ensures !HasRoom(old(v.Now()), k, name) && old(v.fs).sb.freeBlocks > 0 ==>
      Grown(old(v.Now()), v.Now(), k, Dir.Entry(Truncated(name), ino, kind), leak, r)
  {
    hide State.Valid, Whole, FileBytes, Dir.Tiled, Dir.Live, Dir.Room, Dir.EntrySize, Rewritten, Grown, Dir.MergeFits,
      Dir.Names;
    ghost var a := v.Now();
    WholeFacts(a, k);
    var nm := Truncated(name);
    var d := ReadAll(v, k);
    var found, d';
    found, d', pre, post := Dir.AddEntry(d, ino, nm, kind);
    if found {
      RoomNonEmpty(d, Dir.EntrySize(|nm|));
      r := Rewrite(v, k, d');
      RewrittenFacts(a, v.Now(), k, d');
      r, leak := 0, 0;
    } else {
      r, leak := GrowDir(v, k, Dir.Entry(nm, ino, kind), d);
    }
  }

  lemma RoomNonEmpty(d: seq<byte>, needed: nat)
    requires Dir.Tiled(d, 0) && Dir.Room(d, 0, needed)
    ensures d != []
  {
  }
}
