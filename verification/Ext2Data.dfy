/** One turn of the write loop: the bytes of a file when a chunk is copied into one logical block. */
module Ext2Data {
  import opened Ext2Bytes
  import opened Ext2Tree
  import opened Ext2Volume
  import opened Ext2Files
  import Arith

  /** Logical block `idx` of file `k`. */
  function Blk(s: State, k: nat, idx: nat): Block
    requires k < |s.inodes| && PerBlock(s.fs.geo.blockSize) > 0
  {
    Content(s.fs.disk, s.fs.geo.blockSize, s.inodes[k], idx)
  }

  /** The block that holds logical block `idx` of file `k`, or 0 for a hole. */
  function Where(s: State, k: nat, idx: nat): u32
    requires k < |s.inodes| && PerBlock(s.fs.geo.blockSize) > 0
  {
    Mapped(s.fs.disk, s.fs.geo.blockSize, s.inodes[k], idx)
  }

  /** Getting a block changes no byte of any file and remaps nothing but the block asked for. */
  lemma WalkedKeeps(a: State, b: State, reserved: set<nat>, k: nat, idx: nat, r: u32, allocate: bool)
    requires a.Valid(reserved) && PerBlock(a.fs.geo.blockSize) > 0 && idx < Limit(a.fs.geo.blockSize)
    requires Walked(a, b, reserved, k, PathOf(a.fs.geo.blockSize, idx), r, allocate)
    ensures b.fs.geo == a.fs.geo && r == Where(b, k, idx)
    ensures forall h, i: nat :: 0 <= h < |a.inodes| ==> Blk(b, h, i) == Blk(a, h, i)
    ensures forall h, i: nat :: 0 <= h < |a.inodes| && (h != k || i != idx) ==> Where(b, h, i) == Where(a, h, i)
    ensures Where(a, k, idx) != 0 ==> r == Where(a, k, idx)
  {
    hide Fs.Sound;
    var bs := a.fs.geo.blockSize;
    var path := PathOf(bs, idx);
    b.fs.SoundFacts(b.used, reserved);
    GrowsContent(a.fs.disk, a.inodes, a.owner, b.fs.disk, b.inodes, b.owner, k, path, bs);
    forall h, i: nat | 0 <= h < |a.inodes| && (h != k || i != idx || Where(a, k, idx) != 0)
      ensures Where(b, h, i) == Where(a, h, i)
    {
      if i < Limit(bs) {
        var s := SlotOf(bs, i);
        if s in path { SlotOnPath(bs, i, idx); }
        assert At(b.fs.disk, b.inodes[h], s) == At(a.fs.disk, a.inodes[h], s);
      }
    }
  }

  lemma SlotOnPath(bs: nat, i: nat, idx: nat)
    requires PerBlock(bs) > 0 && SlotOf(bs, i) in PathOf(bs, idx)
    ensures i == idx
  {
    SlotOfInjective(bs, i, idx);
  }

  /** Overwriting the block of (k, idx) changes that logical block of that file and nothing else. */
  lemma DataWritten(a: State, reserved: set<nat>, k: nat, idx: nat, data: Block)
    requires a.Valid(reserved) && k < |a.inodes| && |data| == a.fs.geo.blockSize && PerBlock(a.fs.geo.blockSize) > 0
    requires Where(a, k, idx) != 0
    ensures Where(a, k, idx) < |a.fs.disk| && Where(a, k, idx) !in reserved
    ensures
      var c := Put(a, Where(a, k, idx), data);
      && c.Valid(reserved)
      && (forall h, i: nat :: 0 <= h < |a.inodes| ==> Blk(c, h, i) == if h == k && i == idx then data else Blk(a, h, i))
      && (forall h, s :: 0 <= h < |a.inodes| ==> c.Get(h, s) == a.Get(h, s))
  {
    hide Fs.Sound;
    var b := Where(a, k, idx);
    assert b in a.owner;
    WriteContent(a.fs.disk, a.inodes, a.owner, a.fs.geo.blockSize, k, idx, data);
    a.fs.WriteSound(b, data, a.used, reserved);
  }

  // ----- bytes

  /** Byte `p` of file `k`; holes are zeros. */
  function ByteAt(s: State, k: nat, p: nat): byte
    requires k < |s.inodes| && PerBlock(s.fs.geo.blockSize) > 0
  {
    var bs := s.fs.geo.blockSize;
    if p % bs < |Blk(s, k, p / bs)| then Blk(s, k, p / bs)[p % bs] else 0
  }

  /** Byte `at` of block `b` of the device; a null pointer reads as zeros. */
  function Fetched(disk: seq<Block>, b: nat, at: nat): byte {
    if 0 < b < |disk| && at < |disk[b]| then disk[b][at] else 0
  }

  /** The bytes of a file lie in its blocks in order: byte `at` of logical block `idx` is byte
      `idx * bs + at` of the file. */
  lemma ByteInBlock(s: State, k: nat, idx: nat, at: nat)
    requires k < |s.inodes| && PerBlock(s.fs.geo.blockSize) > 0 && at < s.fs.geo.blockSize
    ensures ByteAt(s, k, idx * s.fs.geo.blockSize + at) == Fetched(s.fs.disk, Where(s, k, idx), at)
  {
    hide Mapped;
    Arith.Split(s.fs.geo.blockSize, idx, at, idx * s.fs.geo.blockSize + at);
  }

  /** File offset of byte `at` of logical block `idx`. */
  function Offset(bs: nat, idx: nat, at: nat): nat { idx * bs + at }

  /** `blk` with `chunk` copied in at offset `at`. */
  function Spliced(blk: Block, at: nat, chunk: seq<byte>): (r: Block)
    requires at + |chunk| <= |blk|
    ensures |r| == |blk|
  {
    blk[..at] + chunk + blk[at + |chunk|..]
  }

  /** Splicing into one logical block overwrites one byte range of the file. */
  lemma SplicedBytes(a: State, c: State, k: nat, idx: nat, at: nat, chunk: seq<byte>)
    requires k < |a.inodes| == |c.inodes| && c.fs.geo == a.fs.geo && PerBlock(a.fs.geo.blockSize) > 0
    requires |Blk(a, k, idx)| == a.fs.geo.blockSize && at + |chunk| <= a.fs.geo.blockSize
    requires forall i: nat :: Blk(c, k, i) == if i == idx then Spliced(Blk(a, k, idx), at, chunk) else Blk(a, k, i)
    ensures var o := Offset(a.fs.geo.blockSize, idx, at);
      forall p: nat :: ByteAt(c, k, p) == if o <= p < o + |chunk| then chunk[p - o] else ByteAt(a, k, p)
  {
    var bs := a.fs.geo.blockSize;
    var o := Offset(bs, idx, at);
    forall p: nat ensures ByteAt(c, k, p) == if o <= p < o + |chunk| then chunk[p - o] else ByteAt(a, k, p) {
      Arith.DivMod(p, bs);
      if o <= p < o + |chunk| {
        Arith.Split(bs, idx, p - idx * bs, p);
      }
      hide Content;
    }
  }

  /** What any amount of writing to file `k` leaves alone: the other inodes, the inode marks, and
      every pointer already set. Blocks newly in use are owned by `k`. */
  ghost predicate Extended(a: State, b: State, k: nat) {
    && b.fs.geo == a.fs.geo && k < |a.inodes| == |b.inodes|
    && b.inodes ==
      a.inodes[k := a.inodes[k].(ptr := b.inodes[k].ptr, size := b.inodes[k].size, sectors := b.inodes[k].sectors)]
    && b.fs.sb.freeInodes == a.fs.sb.freeInodes && b.used.inodes == a.used.inodes
    && b.used.blocks == a.used.blocks + (b.owner.Keys - a.owner.Keys)
    && (forall i :: i in a.owner ==> i in b.owner && b.owner[i] == a.owner[i])
    && (forall i :: i in b.owner && i !in a.owner ==> b.owner[i].file == k && i !in a.used.blocks)
    && (forall h, s {:trigger a.Get(h, s)} {:trigger b.Get(h, s)} ::
          0 <= h < |a.inodes| && (h != k || a.Get(h, s) != 0) ==> b.Get(h, s) == a.Get(h, s))
  }

  lemma ExtendedTwice(a: State, b: State, c: State, k: nat)
    requires Extended(a, b, k) && Extended(b, c, k)
    ensures Extended(a, c, k)
  {
    assert c.owner.Keys - a.owner.Keys == (b.owner.Keys - a.owner.Keys) + (c.owner.Keys - b.owner.Keys);
    forall h, s | 0 <= h < |a.inodes| && (h != k || a.Get(h, s) != 0) ensures c.Get(h, s) == a.Get(h, s) {
      assert b.Get(h, s) == a.Get(h, s);
    }
    hide State.Get;
  }

  lemma WalkedExtends(a: State, b: State, reserved: set<nat>, k: nat, path: seq<Slot>, r: u32, allocate: bool)
    requires Walked(a, b, reserved, k, path, r, allocate)
    ensures Extended(a, b, k)
  {
    hide State.Valid;
  }

  lemma PutExtends(a: State, k: nat, idx: nat, i: nat, data: Block)
    requires k < |a.inodes| && i < |a.fs.disk|
    requires forall h, s :: 0 <= h < |a.inodes| ==> Put(a, i, data).Get(h, s) == a.Get(h, s)
    ensures Extended(a, Put(a, i, data), k)
  {
    hide State.Get;
  }

  /** Every byte of every file but `k` is as before. */
  ghost predicate OthersKept(a: State, b: State, k: nat)
    requires |b.inodes| == |a.inodes| && b.fs.geo == a.fs.geo && PerBlock(a.fs.geo.blockSize) > 0
  {
    forall h, i: nat :: 0 <= h < |a.inodes| && h != k ==> Blk(b, h, i) == Blk(a, h, i)
  }

  /** File `k` reads as before except that `data` now lies at offset `o`. */
  ghost predicate Overlaid(a: State, b: State, k: nat, o: nat, data: seq<byte>)
    requires k < |a.inodes| == |b.inodes| && b.fs.geo == a.fs.geo && PerBlock(a.fs.geo.blockSize) > 0
  {
    forall p: nat :: ByteAt(b, k, p) == if o <= p < o + |data| then data[p - o] else ByteAt(a, k, p)
  }

  ghost predicate CanReach(s: State, k: nat, idx: nat)
    requires k < |s.inodes| && PerBlock(s.fs.geo.blockSize) > 0
  {
    idx < Limit(s.fs.geo.blockSize) && Missing(s, k, PathOf(s.fs.geo.blockSize, idx)) <= s.fs.sb.freeBlocks
  }

  lemma PathComplete(s: State, reserved: set<nat>, k: nat, idx: nat)
    requires s.Valid(reserved) && k < |s.inodes| && PerBlock(s.fs.geo.blockSize) > 0
    requires Where(s, k, idx) != 0
    ensures idx < Limit(s.fs.geo.blockSize) && Missing(s, k, PathOf(s.fs.geo.blockSize, idx)) == 0
  {
    hide Fs.Sound;
    var leaf := SlotOf(s.fs.geo.blockSize, idx);
    if leaf.SingleEntry? {
      MissingOne(s, k, Single);
      MissingAppend(s, k, [Single], leaf);
    } else if leaf.DoubleLeaf? {
      MissingOne(s, k, Double);
      MissingAppend(s, k, [Double], DoubleEntry(leaf.i));
      MissingAppend(s, k, [Double] + [DoubleEntry(leaf.i)], leaf);
    } else {
      MissingOne(s, k, leaf);
    }
  }

  /** The path to logical block `idx` was completed and no other pointer touched. */
  ghost predicate Filled(a: State, b: State, k: nat, idx: nat)
    requires k < |a.inodes| == |b.inodes| && PerBlock(a.fs.geo.blockSize) > 0
  {
    var path := PathOf(a.fs.geo.blockSize, idx);
    && b.fs.sb.freeBlocks == a.fs.sb.freeBlocks - Missing(a, k, path)
    && forall x :: b.Get(k, x) == 0 <==> a.Get(k, x) == 0 && x !in path
  }

  lemma WalkFills(a: State, m: State, c: State, reserved: set<nat>, k: nat, idx: nat, b: u32)
    requires PerBlock(a.fs.geo.blockSize) > 0 && Walked(a, m, reserved, k, PathOf(a.fs.geo.blockSize, idx), b, true)
    requires b != 0
    requires SameTree(m, c, k)
    ensures Filled(a, c, k, idx)
  {
    hide State.Valid, Grows, Missing, State.Get, PathOf;
    var path := PathOf(a.fs.geo.blockSize, idx);
    PathPresent(m, k, a.fs.geo.blockSize, idx);
    forall x | x !in path ensures m.Get(k, x) == a.Get(k, x) {
      OffPath(a, m, k, path, Missing(a, k, path), x);
    }
    OnPath(a, m, k, path, Missing(a, k, path));
  }

  lemma OnPath(a: State, b: State, k: nat, path: seq<Slot>, m: nat)
    requires Gained(a, b, k, path, m)
    ensures forall x :: a.Get(k, x) != 0 ==> b.Get(k, x) != 0
  {
  }

  /** Where the last pointer of a path is present, so are the others. */
  lemma PathPresent(s: State, k: nat, bs: nat, idx: nat)
    requires k < |s.inodes| && PerBlock(bs) > 0 && s.Get(k, SlotOf(bs, idx)) != 0
    ensures forall x :: x in PathOf(bs, idx) ==> s.Get(k, x) != 0
  {
  }

  /** One turn of the write loop took file `k` from `a` to `b`, copying `chunk` into logical block
      `idx` at `at` exactly when the block could be reached. */
  ghost predicate Chunked(a: State, b: State, k: nat, idx: nat, at: nat, chunk: seq<byte>, ok: bool) {
    && PerBlock(a.fs.geo.blockSize) > 0 && Extended(a, b, k) && OthersKept(a, b, k)
    && (ok <==> CanReach(a, k, idx)) && (ok <==> Where(b, k, idx) != 0) && (ok ==> Filled(a, b, k, idx))
    && Overlaid(a, b, k, Offset(a.fs.geo.blockSize, idx, at), if ok then chunk else [])
    && b.inodes[k] == a.inodes[k].(ptr := b.inodes[k].ptr)
    && (Where(a, k, idx) != 0 ==> SameTree(a, b, k))
    && (idx < 12 ==> b.Get(k, Single) == a.Get(k, Single) && b.Get(k, Double) == a.Get(k, Double))
    && (idx < 12 && !ok ==> b == a)
  }

  /** File `k` has the same pointers and no block was taken. */
  ghost predicate SameTree(a: State, b: State, k: nat) {
    && k < |a.inodes| == |b.inodes| && b.inodes[k].ptr == a.inodes[k].ptr
    && b.owner == a.owner && b.used == a.used && b.fs.sb == a.fs.sb && b.fs.geo == a.fs.geo
    && forall s :: b.Get(k, s) == a.Get(k, s)
  }

  lemma ChunkRefused(a: State, b: State, reserved: set<nat>, k: nat, idx: nat, at: nat, chunk: seq<byte>)
    requires a.Valid(reserved) && k < |a.inodes| && PerBlock(a.fs.geo.blockSize) > 0
    requires if idx >= Limit(a.fs.geo.blockSize) then b == a
             else Walked(a, b, reserved, k, PathOf(a.fs.geo.blockSize, idx), 0, true)
    ensures Chunked(a, b, k, idx, at, chunk, false)
  {
    hide State.Valid, Extended, Content, PathOf, Grows;
    if idx >= Limit(a.fs.geo.blockSize) {
      SameExtends(a, k);
    } else {
      WalkedKeeps(a, b, reserved, k, idx, 0, true);
      WalkedExtends(a, b, reserved, k, PathOf(a.fs.geo.blockSize, idx), 0, true);
      SameBytes(a, b, k);
      if idx < 12 {
        TopsKept(a, b, k, idx, Min(Missing(a, k, PathOf(a.fs.geo.blockSize, idx)), a.fs.sb.freeBlocks));
        MissingOne(a, k, Direct(idx));
        PathCases(a.fs.geo.blockSize, idx);
      }
    }
  }

  lemma SameExtends(a: State, k: nat)
    requires k < |a.inodes|
    ensures Extended(a, a, k)
  {
  }

  lemma SameBytes(a: State, m: State, k: nat)
    requires k < |a.inodes| == |m.inodes| && m.fs.geo == a.fs.geo && PerBlock(a.fs.geo.blockSize) > 0
    requires forall i: nat :: Blk(m, k, i) == Blk(a, k, i)
    ensures forall p: nat :: ByteAt(m, k, p) == ByteAt(a, k, p)
  {
  }

  lemma ChunkBytes(a: State, m: State, reserved: set<nat>, k: nat, idx: nat, at: nat, chunk: seq<byte>, b: u32,
                   data: Block, c: State)
    requires k < |a.inodes| == |m.inodes| && m.fs.geo == a.fs.geo && PerBlock(a.fs.geo.blockSize) > 0
    requires 0 < b < |m.fs.disk| && at + |chunk| <= |m.fs.disk[b]| == m.fs.geo.blockSize && c == Put(m, b, data)
    requires data == Spliced(m.fs.disk[b], at, chunk) && b == Where(m, k, idx)
    requires forall h, i: nat :: 0 <= h < |a.inodes| ==> Blk(m, h, i) == Blk(a, h, i)
    requires m.Valid(reserved)
    ensures Where(c, k, idx) != 0 && OthersKept(a, c, k)
    ensures Overlaid(a, c, k, Offset(a.fs.geo.blockSize, idx, at), chunk)
    ensures c.Valid(reserved) && Extended(m, c, k) && SameTree(m, c, k)
  {
    hide State.Valid, Extended, At, SlotOf, Limit;
    DataWritten(m, reserved, k, idx, data);
    PutExtends(m, k, idx, b, data);
    assert c.Get(k, SlotOf(a.fs.geo.blockSize, idx)) == m.Get(k, SlotOf(a.fs.geo.blockSize, idx));
    SplicedBytes(m, c, k, idx, at, chunk);
    SameBytes(a, m, k);
  }

  lemma ChunkCopied(a: State, m: State, c: State, reserved: set<nat>, k: nat, idx: nat, at: nat, chunk: seq<byte>,
                    b: u32)
    requires a.Valid(reserved) && k < |a.inodes| && PerBlock(a.fs.geo.blockSize) > 0
    requires idx < Limit(a.fs.geo.blockSize)
    requires Walked(a, m, reserved, k, PathOf(a.fs.geo.blockSize, idx), b, true)
    requires 0 < b < |m.fs.disk| && at + |chunk| <= |m.fs.disk[b]| == m.fs.geo.blockSize
    requires c == Put(m, b, Spliced(m.fs.disk[b], at, chunk))
    ensures c.Valid(reserved) && Chunked(a, c, k, idx, at, chunk, true)
  {
    hide State.Valid, Extended, Overlaid, OthersKept, PathOf, Where, Blk, Grows;
    WalkedKeeps(a, m, reserved, k, idx, b, true);
    WalkedExtends(a, m, reserved, k, PathOf(a.fs.geo.blockSize, idx), b, true);
    ChunkBytes(a, m, reserved, k, idx, at, chunk, b, Spliced(m.fs.disk[b], at, chunk), c);
    WalkFills(a, m, c, reserved, k, idx, b);
    ExtendedTwice(a, m, c, k);
    if Where(a, k, idx) != 0 {
      PathComplete(a, reserved, k, idx);
    }
    if idx < 12 {
      TopsKept(a, m, k, idx, Missing(a, k, PathOf(a.fs.geo.blockSize, idx)));
    }
  }

  lemma TopsKept(a: State, m: State, k: nat, idx: nat, n: nat)
    requires PerBlock(a.fs.geo.blockSize) > 0 && idx < 12
    requires Gained(a, m, k, PathOf(a.fs.geo.blockSize, idx), n)
    ensures m.Get(k, Single) == a.Get(k, Single) && m.Get(k, Double) == a.Get(k, Double)
  {
  }

  method WriteChunk(v: Volume, k: nat, idx: nat, at: nat, chunk: seq<byte>) returns (ok: bool)
    requires v.Valid() && k < |v.inodes| && at + |chunk| <= v.fs.geo.blockSize
    modifies v`fs, v`used, v`inodes, v`owner
    ensures v.Valid() && Chunked(old(v.Now()), v.Now(), k, idx, at, chunk, ok)
  {
    ghost var a := v.Now();
    hide State.Valid, Walked, Chunked;
    BlockSizeOk(a, v.reserved);
    var b := GetBlock(v, k, idx, true);
    ghost var m := v.Now();
    if b == 0 {
      ChunkRefused(a, m, v.reserved, k, idx, at, chunk);
      return false;
    }
    OnDisk(a, m, v.reserved, k, idx, b);
    var block: Block := Zeros(v.fs.geo.blockSize);
    if at > 0 || |chunk| < v.fs.geo.blockSize {
      block := v.fs.disk[b];
    }
    assert Spliced(block, at, chunk) == Spliced(v.fs.disk[b], at, chunk);
    WriteBlock(v, b, Spliced(block, at, chunk));
    ChunkCopied(a, m, v.Now(), v.reserved, k, idx, at, chunk, b);
    return true;
  }

  lemma OnDisk(a: State, m: State, reserved: set<nat>, k: nat, idx: nat, b: u32)
    requires PerBlock(a.fs.geo.blockSize) > 0 && Walked(a, m, reserved, k, PathOf(a.fs.geo.blockSize, idx), b, true)
    requires b != 0
    ensures b < |m.fs.disk| && |m.fs.disk[b]| == m.fs.geo.blockSize
  {
    hide Fs.Sound;
    m.fs.SoundFacts(m.used, reserved);
    assert b in m.owner;
  }
}
