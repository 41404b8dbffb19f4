/** ext2_write_inode_data and ext2_read_inode_data: a file is a sequence of bytes. */
module Ext2Io {
  import opened Basics
  import opened Ext2Bytes
  import opened Ext2Tree
  import opened Ext2Volume
  import opened Ext2Files
  import opened Ext2Data
  import Arith

  // ----- writing

  /** The write loop has copied `data` to offset `o` of file `k` and changed nothing else that reads see. */
  ghost predicate Progress(a: State, b: State, k: nat, o: nat, data: seq<byte>) {
    && PerBlock(a.fs.geo.blockSize) > 0 && Extended(a, b, k) && OthersKept(a, b, k)
    && Overlaid(a, b, k, o, data) && b.inodes[k] == a.inodes[k].(ptr := b.inodes[k].ptr)
  }

  lemma ProgressStart(a: State, k: nat, o: nat)
    requires k < |a.inodes| && PerBlock(a.fs.geo.blockSize) > 0
    ensures Progress(a, a, k, o, [])
  {
    SameExtends(a, k);
    hide Extended;
  }

  lemma ProgressStep(a: State, m: State, c: State, k: nat, o: nat, data: seq<byte>, idx: nat, at: nat,
                     chunk: seq<byte>, ok: bool)
    requires Progress(a, m, k, o, data) && Chunked(m, c, k, idx, at, chunk, ok)
    requires Offset(a.fs.geo.blockSize, idx, at) == o + |data|
    ensures Progress(a, c, k, o, if ok then data + chunk else data)
  {
    ExtendedTwice(a, m, c, k);
    var more := if ok then chunk else [];
    var all := if ok then data + chunk else data;
    assert all == data + more;
    assert m.fs.geo == a.fs.geo && c.fs.geo == a.fs.geo;
    forall p: nat ensures ByteAt(c, k, p) == if o <= p < o + |all| then all[p - o] else ByteAt(a, k, p) {
      assert ByteAt(c, k, p) == if o + |data| <= p < o + |data| + |more| then more[p - (o + |data|)]
            else ByteAt(m, k, p);
      assert ByteAt(m, k, p) == if o <= p < o + |data| then data[p - o] else ByteAt(a, k, p);
    }
    hide ByteAt, Blk, Where, CanReach, SameTree;
  }

  /** Logical blocks `lo` up to `hi` of file `k` have blocks. */
  ghost predicate AllMapped(s: State, k: nat, lo: nat, hi: nat)
    requires k < |s.inodes| && PerBlock(s.fs.geo.blockSize) > 0
  {
    forall i: nat :: lo <= i < hi ==> Where(s, k, i) != 0
  }

  /** Over mapped blocks the loop allocates nothing; if only the last block is in doubt, it decides. */
  ghost predicate Reach(a: State, b: State, k: nat, first: nat, last: nat, idx: nat) {
    && k < |a.inodes| && PerBlock(a.fs.geo.blockSize) > 0
    && (AllMapped(a, k, first, last) && idx <= last ==> SameTree(a, b, k))
    && (AllMapped(a, k, first, last) && idx > last ==> CanReach(a, k, last))
    && (AllMapped(a, k, first, last + 1) ==> SameTree(a, b, k))
    && (last < 12 ==> SameTops(a, b, k))
    && b.fs.geo == a.fs.geo && |b.inodes| == |a.inodes| && AllMapped(b, k, first, idx)
    && Tally(a, b, k, first, idx) && (idx > first ==> idx <= Limit(a.fs.geo.blockSize))
  }

  /** The indirect pointers of file `k` are as before. */
  ghost predicate SameTops(a: State, b: State, k: nat) {
    k < |a.inodes| == |b.inodes| && b.Get(k, Single) == a.Get(k, Single) && b.Get(k, Double) == a.Get(k, Double)
  }

  lemma ReachStep(a: State, m: State, c: State, reserved: set<nat>, k: nat, first: nat, last: nat, idx: nat, at: nat,
                  chunk: seq<byte>, ok: bool)
    requires Reach(a, m, k, first, last, idx) && first <= idx <= last && Extended(a, m, k) && m.Valid(reserved)
    requires Chunked(m, c, k, idx, at, chunk, ok)
    ensures ok ==> Reach(a, c, k, first, last, idx + 1)
    ensures AllMapped(c, k, first, idx) && (!ok ==> !Affordable(a, k, first, last))
    ensures !ok ==> !AllMapped(a, k, first, last + 1) && (AllMapped(a, k, first, last) ==> !CanReach(a, k, last))
    ensures last < 12 ==> SameTops(a, c, k) && (!ok ==> c == m)
    ensures c.fs.geo == a.fs.geo && k < |c.inodes| && (!ok ==> Where(c, k, idx) == 0)
  {
    hide State.Valid, Overlaid, OthersKept, Filled, Tally, Affordable;
    var bs := a.fs.geo.blockSize;
    if ok {
      TallyStep(a, m, c, k, first, idx);
    } else {
      TallyRefused(a, m, k, first, idx, last);
    }
    assert Where(a, k, idx) != 0 ==> Where(m, k, idx) != 0 by {
      assert idx < Limit(bs) && a.Get(k, SlotOf(bs, idx)) != 0 ==>
        m.Get(k, SlotOf(bs, idx)) == a.Get(k, SlotOf(bs, idx));
    }
    if Where(m, k, idx) != 0 {
      PathComplete(m, reserved, k, idx);
    }
    if AllMapped(a, k, first, last) && idx == last {
      SameReach(a, m, k, last);
    }
    MappedKept(m, c, k, first, idx);
  }

  lemma MappedKept(a: State, b: State, k: nat, lo: nat, hi: nat)
    requires Extended(a, b, k) && PerBlock(a.fs.geo.blockSize) > 0 && AllMapped(a, k, lo, hi)
    ensures AllMapped(b, k, lo, hi)
  {
    forall i: nat | lo <= i < hi ensures Where(b, k, i) != 0 {
      var s := SlotOf(a.fs.geo.blockSize, i);
      assert Where(a, k, i) != 0 && a.Get(k, s) != 0;
      assert b.Get(k, s) == a.Get(k, s);
    }
  }

  lemma SameReach(a: State, m: State, k: nat, idx: nat)
    requires SameTree(a, m, k) && PerBlock(a.fs.geo.blockSize) > 0
    ensures CanReach(m, k, idx) <==> CanReach(a, k, idx)
  {
    SameMissing(a, m, k, PathOf(a.fs.geo.blockSize, idx));
  }

  lemma {:induction false} SameMissing(a: State, m: State, k: nat, path: seq<Slot>)
    requires SameTree(a, m, k)
    ensures Missing(m, k, path) == Missing(a, k, path)
  {
    if path != [] {
      SameMissing(a, m, k, path[..|path| - 1]);
    }
  }

  // ----- how many blocks a write needs

  /** The pointers on the way to logical blocks `lo` up to `hi`, each counted once. */
  ghost function Slots(bs: nat, lo: nat, hi: nat): set<Slot>
    requires PerBlock(bs) > 0
  {
    set i: nat, x | lo <= i < hi && x in PathOf(bs, i) :: x
  }

  /** Those of them that are null in file `k`: the blocks a write to this range has to allocate. */
  ghost function Lacking(s: State, k: nat, lo: nat, hi: nat): set<Slot>
    requires k < |s.inodes| && PerBlock(s.fs.geo.blockSize) > 0
  {
    set x | x in Slots(s.fs.geo.blockSize, lo, hi) && s.Get(k, x) == 0
  }

  /** The range is within the largest file and the volume has the blocks it lacks. */
  ghost predicate Affordable(s: State, k: nat, first: nat, last: nat)
    requires k < |s.inodes| && PerBlock(s.fs.geo.blockSize) > 0
  {
    last < Limit(s.fs.geo.blockSize) && |Lacking(s, k, first, last + 1)| <= s.fs.sb.freeBlocks
  }

  /** Blocks `first` up to `idx` have been completed, each missing block taken once. */
  ghost predicate Tally(a: State, m: State, k: nat, first: nat, idx: nat)
    requires k < |a.inodes| == |m.inodes| && PerBlock(a.fs.geo.blockSize) > 0
  {
    && m.fs.sb.freeBlocks == a.fs.sb.freeBlocks - |Lacking(a, k, first, idx)|
    && forall x :: m.Get(k, x) == 0 <==> a.Get(k, x) == 0 && x !in Slots(a.fs.geo.blockSize, first, idx)
  }

  lemma TallyStart(a: State, k: nat, first: nat)
    requires k < |a.inodes| && PerBlock(a.fs.geo.blockSize) > 0
    ensures Tally(a, a, k, first, first)
  {
    assert Lacking(a, k, first, first) == {};
  }

  ghost function Nulls(s: State, k: nat, path: seq<Slot>): set<Slot>
    requires k < |s.inodes|
  {
    set x | x in path && s.Get(k, x) == 0
  }

  lemma {:induction false} MissingCounts(s: State, k: nat, path: seq<Slot>)
    requires k < |s.inodes| && Distinct(path)
    ensures Missing(s, k, path) == |Nulls(s, k, path)|
  {
    hide State.Get;
    if path != [] {
      var n := |path| - 1;
      MissingCounts(s, k, path[..n]);
      NullsNext(s, k, path, n);
    } else {
      assert Nulls(s, k, path) == {};
    }
  }

  lemma NullsNext(s: State, k: nat, path: seq<Slot>, n: nat)
    requires k < |s.inodes| && Distinct(path) && n == |path| - 1
    ensures path[n] !in Nulls(s, k, path[..n])
    ensures Nulls(s, k, path) == Nulls(s, k, path[..n]) + if s.Get(k, path[n]) == 0 then {path[n]} else {}
  {
    hide State.Get;
    assert path == path[..n] + [path[n]];
    assert forall x :: x in path <==> x in path[..n] || x == path[n];
  }

  lemma PathDistinct(bs: nat, idx: nat)
    requires PerBlock(bs) > 0
    ensures Distinct(PathOf(bs, idx))
  {
  }

  lemma SlotsNext(bs: nat, first: nat, idx: nat)
    requires PerBlock(bs) > 0 && first <= idx
    ensures forall x :: x in Slots(bs, first, idx + 1) <==> x in Slots(bs, first, idx) || x in PathOf(bs, idx)
  {
    hide PathOf;
  }

  /** One more block costs the pointers still missing on its path. */
  lemma LackingNext(a: State, m: State, k: nat, first: nat, idx: nat)
    requires k < |a.inodes| == |m.inodes| && PerBlock(a.fs.geo.blockSize) > 0 && first <= idx
    requires Tally(a, m, k, first, idx)
    ensures |Lacking(a, k, first, idx + 1)| ==
      |Lacking(a, k, first, idx)| + Missing(m, k, PathOf(a.fs.geo.blockSize, idx))
  {
    var path := PathOf(a.fs.geo.blockSize, idx);
    hide PathOf, State.Get, Slots;
    PathDistinct(a.fs.geo.blockSize, idx);
    MissingCounts(m, k, path);
    SlotsNext(a.fs.geo.blockSize, first, idx);
    assert Lacking(a, k, first, idx + 1) == Lacking(a, k, first, idx) + Nulls(m, k, path);
    assert Lacking(a, k, first, idx) !! Nulls(m, k, path);
  }

  lemma TallyStep(a: State, m: State, c: State, k: nat, first: nat, idx: nat)
    requires k < |a.inodes| == |m.inodes| == |c.inodes| && PerBlock(a.fs.geo.blockSize) > 0 && first <= idx
    requires m.fs.geo == a.fs.geo && Tally(a, m, k, first, idx) && Filled(m, c, k, idx)
    ensures Tally(a, c, k, first, idx + 1)
  {
    LackingNext(a, m, k, first, idx);
    SlotsNext(a.fs.geo.blockSize, first, idx);
    hide PathOf, State.Get, Slots, Lacking;
  }

  lemma LackingGrows(a: State, k: nat, first: nat, lo: nat, hi: nat)
    requires k < |a.inodes| && PerBlock(a.fs.geo.blockSize) > 0 && lo <= hi
    ensures |Lacking(a, k, first, lo)| <= |Lacking(a, k, first, hi)|
  {
    Subset(Lacking(a, k, first, lo), Lacking(a, k, first, hi));
    hide PathOf, State.Get;
  }

  lemma Subset(p: set<Slot>, q: set<Slot>)
    requires p <= q
    ensures |p| <= |q|
  {
    assert q == p + (q - p);
  }

  lemma TallyRefused(a: State, m: State, k: nat, first: nat, idx: nat, last: nat)
    requires k < |a.inodes| == |m.inodes| && PerBlock(a.fs.geo.blockSize) > 0 && first <= idx <= last
    requires m.fs.geo == a.fs.geo && Tally(a, m, k, first, idx) && !CanReach(m, k, idx)
    ensures !Affordable(a, k, first, last)
  {
    LackingNext(a, m, k, first, idx);
    LackingGrows(a, k, first, idx + 1, last + 1);
    hide PathOf, State.Get, Slots, Lacking, Missing;
  }

  /** How many bytes of the transfer fall in the block at hand. */
  function ChunkSize(bs: nat, at: nat, left: nat): nat
    requires at <= bs
  {
    if bs - at > left then left else bs - at
  }

  /** The logical block that byte `p` lies in. */
  function BlockOf(bs: nat, p: nat): nat
    requires bs > 0
  {
    p / bs
  }

  /** Where byte `p` lies within its block. */
  function Within(bs: nat, p: nat): (r: nat)
    requires bs > 0
    ensures r < bs
  {
    p % bs
  }

  /** The position arithmetic of one turn of the read and write loops. */
  lemma ChunkArith(bs: nat, offset: nat, size: nat, done: nat, idx: nat, at: nat)
    requires 0 < bs && at < bs && done < size && Offset(bs, idx, at) == offset + done
    ensures var n, last := ChunkSize(bs, at, size - done), BlockOf(bs, offset + size - 1);
      && 0 < n && at + n <= bs && done + n <= size && idx <= last && idx == BlockOf(bs, offset + done)
      && (done + n < size ==> Offset(bs, idx + 1, 0) == offset + done + n)
      && idx == BlockOf(bs, offset + done + n - 1)
      && (done + n == size ==> idx == last)
  {
    var n, last := ChunkSize(bs, at, size - done), (offset + size - 1) / bs;
    Arith.DivMod(offset + size - 1, bs);
    Arith.Lex(bs, last, (offset + size - 1) % bs, idx, at);
    Arith.Split(bs, idx, at, offset + done);
    assert (idx + 1) * bs == idx * bs + bs;
    Arith.Split(bs, idx, at + n - 1, offset + done + n - 1);
  }

  /** Every block the first `n` bytes at `offset` fall in is present. */
  ghost predicate Backed(s: State, k: nat, offset: nat, n: nat)
    requires k < |s.inodes| && PerBlock(s.fs.geo.blockSize) > 0
  {
    n > 0 ==> AllMapped(s, k, BlockOf(s.fs.geo.blockSize, offset), BlockOf(s.fs.geo.blockSize, offset + n - 1) + 1)
  }

  /** What the write loop guarantees after copying `n` bytes of `buffer`. */
  ghost predicate Copied(a: State, b: State, k: nat, offset: nat, buffer: seq<byte>, n: nat) {
    && n <= |buffer| && buffer != [] && Progress(a, b, k, offset, buffer[..n]) && Backed(b, k, offset, n)
    && (n < |buffer| ==> Where(b, k, BlockOf(a.fs.geo.blockSize, offset + n)) == 0)
    && var first, last := BlockOf(a.fs.geo.blockSize, offset), BlockOf(a.fs.geo.blockSize, offset + |buffer| - 1);
    && (n == |buffer| <==> Affordable(a, k, first, last))
    && (AllMapped(a, k, first, last) ==> (n == |buffer| <==> CanReach(a, k, last)))
    && (AllMapped(a, k, first, last + 1) ==> n == |buffer| && SameTree(a, b, k))
    && (last < 12 ==> SameTops(a, b, k) && (n == 0 ==> b == a))
  }

  /** The write loop's invariant. */
  ghost predicate Writing(a: State, b: State, k: nat, offset: nat, buffer: seq<byte>, written: nat, idx: nat, at: nat) {
    && written <= |buffer| && buffer != [] && PerBlock(a.fs.geo.blockSize) > 0 && at < a.fs.geo.blockSize
    && var bs := a.fs.geo.blockSize; var first, last := BlockOf(bs, offset), BlockOf(bs, offset + |buffer| - 1);
    && Progress(a, b, k, offset, buffer[..written]) && first <= idx && Reach(a, b, k, first, last, idx)
    && (if written < |buffer| then Offset(bs, idx, at) == offset + written else idx > last)
    && (if written > 0 then idx == BlockOf(bs, offset + written - 1) + 1 else b == a)
    && first <= last
  }

  lemma WritingStart(a: State, k: nat, offset: nat, buffer: seq<byte>, idx: nat, at: nat)
    requires PerBlock(a.fs.geo.blockSize) > 0 && k < |a.inodes| && buffer != []
    requires idx == BlockOf(a.fs.geo.blockSize, offset) && at == Within(a.fs.geo.blockSize, offset)
    ensures Writing(a, a, k, offset, buffer, 0, idx, at)
  {
    StartOffset(a.fs.geo.blockSize, offset);
    ChunkArith(a.fs.geo.blockSize, offset, |buffer|, 0, idx, at);
    ProgressStart(a, k, offset);
    ReachStart(a, k, idx, BlockOf(a.fs.geo.blockSize, offset + |buffer| - 1));
    assert buffer[..0] == [];
    hide Progress, Reach, BlockOf, Offset;
  }

  lemma WritingStep(a: State, m: State, c: State, reserved: set<nat>, k: nat, offset: nat, buffer: seq<byte>,
                    written: nat, idx: nat, at: nat, n: nat, ok: bool)
    requires Writing(a, m, k, offset, buffer, written, idx, at) && written < |buffer| && m.Valid(reserved)
    requires n == ChunkSize(a.fs.geo.blockSize, at, |buffer| - written) && written + n <= |buffer|
    requires Chunked(m, c, k, idx, at, buffer[written..written + n], ok)
    ensures ok ==> Writing(a, c, k, offset, buffer, written + n, idx + 1, 0)
    ensures !ok ==> Copied(a, c, k, offset, buffer, written)
    ensures c.fs.geo == a.fs.geo && |c.inodes| == |a.inodes| && k < |a.inodes| && at + n <= a.fs.geo.blockSize
  {
    hide State.Valid, Chunked, Progress, Reach, Extended, AllMapped, SameTree, BlockOf, Offset, CanReach;
    var bs, chunk := a.fs.geo.blockSize, buffer[written..written + n];
    var first, last := BlockOf(bs, offset), BlockOf(bs, offset + |buffer| - 1);
    ChunkArith(bs, offset, |buffer|, written, idx, at);
    ProgressFacts(a, m, k, offset, buffer[..written]);
    ProgressStep(a, m, c, k, offset, buffer[..written], idx, at, chunk, ok);
    ProgressFacts(a, c, k, offset, if ok then buffer[..written] + chunk else buffer[..written]);
    ReachStep(a, m, c, reserved, k, first, last, idx, at, chunk, ok);
    assert buffer[..written] + chunk == buffer[..written + n];
  }

  lemma WritingDone(a: State, b: State, k: nat, offset: nat, buffer: seq<byte>, idx: nat, at: nat)
    requires Writing(a, b, k, offset, buffer, |buffer|, idx, at)
    ensures Copied(a, b, k, offset, buffer, |buffer|)
  {
    var bs := a.fs.geo.blockSize;
    ReachDone(a, b, k, BlockOf(bs, offset), BlockOf(bs, offset + |buffer| - 1), idx);
    hide Progress, Reach, AllMapped, SameTree;
  }

  /** One turn of the loop; `n` is 0 when the block could not be had. */
  method WriteTurn(v: Volume, ghost a: State, k: nat, offset: nat, buffer: seq<byte>, written: nat, idx: nat,
                   at: nat) returns (n: nat)
    requires v.Valid() && k < |v.inodes| && v.fs.geo == a.fs.geo && at < v.fs.geo.blockSize && written < |buffer|
    requires Writing(a, v.Now(), k, offset, buffer, written, idx, at)
    modifies v`fs, v`used, v`inodes, v`owner
    ensures v.Valid() && k < |v.inodes| && v.fs.geo == a.fs.geo && written + n <= |buffer|
    ensures n > 0 ==> Writing(a, v.Now(), k, offset, buffer, written + n, idx + 1, 0)
    ensures n == 0 ==> Copied(a, v.Now(), k, offset, buffer, written)
  {
    hide State.Valid, Chunked, Writing, Copied;
    n := ChunkSize(v.fs.geo.blockSize, at, |buffer| - written);
    ghost var m := v.Now();
    var ok := WriteChunk(v, k, idx, at, buffer[written..written + n]);
    WritingStep(a, m, v.Now(), v.reserved, k, offset, buffer, written, idx, at, n, ok);
    if !ok {
      n := 0;
    }
  }

  method WriteLoop(v: Volume, k: nat, offset: nat, buffer: seq<byte>) returns (written: nat)
    requires v.Valid() && k < |v.inodes| && buffer != []
    modifies v`fs, v`used, v`inodes, v`owner
    ensures v.Valid() && Copied(old(v.Now()), v.Now(), k, offset, buffer, written)
  {
    ghost var a := v.Now();
    hide State.Valid, Writing, Copied, BlockOf, Within;
    BlockSizeOk(a, v.reserved);
    var bs := v.fs.geo.blockSize;
    var idx, at := BlockOf(bs, offset), Within(bs, offset);
    written := 0;
    WritingStart(a, k, offset, buffer, idx, at);
    while written < |buffer|
      invariant v.Valid() && k < |v.inodes| && v.fs.geo == a.fs.geo && at < bs && written <= |buffer|
      invariant Writing(a, v.Now(), k, offset, buffer, written, idx, at)
    {
      var n := WriteTurn(v, a, k, offset, buffer, written, idx, at);
      if n == 0 {
        return;
      }
      written, idx, at := written + n, idx + 1, 0;
    }
    WritingDone(a, v.Now(), k, offset, buffer, idx, at);
  }

  lemma StartOffset(bs: nat, offset: nat)
    requires bs > 0
    ensures Offset(bs, BlockOf(bs, offset), Within(bs, offset)) == offset
  {
    Arith.DivMod(offset, bs);
  }

  lemma ReachStart(a: State, k: nat, first: nat, last: nat)
    requires k < |a.inodes| && PerBlock(a.fs.geo.blockSize) > 0 && first <= last
    ensures Reach(a, a, k, first, last, first)
  {
    TallyStart(a, k, first);
  }

  lemma ReachDone(a: State, b: State, k: nat, first: nat, last: nat, idx: nat)
    requires Reach(a, b, k, first, last, idx) && idx > last
    ensures AllMapped(a, k, first, last) ==> CanReach(a, k, last)
    ensures AllMapped(a, k, first, last + 1) ==> SameTree(a, b, k)
    ensures last < 12 ==> SameTops(a, b, k)
    ensures b.fs.geo == a.fs.geo && |b.inodes| == |a.inodes| && AllMapped(b, k, first, idx)
    ensures first <= last == idx - 1 ==> Affordable(a, k, first, last)
  {
    hide AllMapped, CanReach, SameTree;
  }

  lemma ProgressFacts(a: State, b: State, k: nat, o: nat, data: seq<byte>)
    requires Progress(a, b, k, o, data)
    ensures Extended(a, b, k) && b.fs.geo == a.fs.geo && |b.inodes| == |a.inodes|
  {
  }

  /** An inode rewrite that keeps the pointers changes no tree and no byte. */
  lemma Resized(a: State, reserved: set<nat>, k: nat, ino: Inode)
    requires a.Valid(reserved) && k < |a.inodes| && ino.ptr == a.inodes[k].ptr && PerBlock(a.fs.geo.blockSize) > 0
    ensures var b := a.(inodes := a.inodes[k := ino]);
      && b.Valid(reserved) && SameTree(a, b, k)
      && (forall h, i: nat :: 0 <= h < |a.inodes| ==> Blk(b, h, i) == Blk(a, h, i))
      && (forall h, s :: 0 <= h < |a.inodes| ==> b.Get(h, s) == a.Get(h, s))
  {
    hide Fs.Sound;
    var b := a.(inodes := a.inodes[k := ino]);
    assert forall h, s :: 0 <= h < |a.inodes| ==> At(b.fs.disk, b.inodes[h], s) == At(a.fs.disk, a.inodes[h], s);
    hide At;
  }

  function Max(a: nat, b: nat): nat { if a > b then a else b }

  /** i_blocks: 512-byte sectors of the blocks the size covers, with the 32-bit sum of the code. */
  function Sectors(bs: nat, size: nat): nat
    requires bs > 0
  {
    var blocks: nat, per: nat := (size + bs - 1) % 0x1_0000_0000 / bs, bs / 512;
    blocks * per
  }

  /** The sectors cover the file exactly unless the size rounded up to whole blocks passes 4 GiB. */
  lemma SectorsCover(bs: nat, size: u32)
    requires bs > 0 && bs % 512 == 0 && bs < 0x1_0000_0000
    ensures Sectors(bs, size) * 512 >= size <==> size + bs <= 0x1_0000_0000 || size == 0
    ensures size + bs <= 0x1_0000_0000 ==> Sectors(bs, size) * 512 < size + bs
  {
    hide Sectors;
    var x: nat := (size + bs - 1) % 0x1_0000_0000;
    SectorBytes(bs, size, x);
    assert x == if size + bs > 0x1_0000_0000 then size + bs - 1 - 0x1_0000_0000 else size + bs - 1;
  }

  lemma SectorBytes(bs: nat, size: u32, x: nat)
    requires bs > 0 && bs % 512 == 0 && x == (size + bs - 1) % 0x1_0000_0000
    ensures var b := Sectors(bs, size) * 512; x - bs < b <= x && (x < bs ==> b == 0)
  {
    WholeBlocks(bs, x);
  }

  /** A file of one byte less than 4 GiB is recorded with no sectors at all. */
  lemma SectorsWrap()
    ensures Sectors(0x400, 0xFFFF_FFFF) == 0
  {
  }

  lemma WholeBlocks(bs: nat, x: nat)
    requires bs > 0 && bs % 512 == 0
    ensures var b := (x / bs) * (bs / 512) * 512; x - bs < b <= x && (x < bs ==> b == 0)
  {
    Regroup(x / bs, bs / 512, bs);
    Arith.DivMod(x, bs);
    if x < bs {
      Arith.Split(bs, 0, x, x);
    }
  }

  lemma Regroup(q: nat, per: nat, bs: nat)
    requires bs == per * 512
    ensures q * per * 512 == q * bs
  {
  }

  /** ext2_write_inode_data took file `k` from `a` to `b`, copying the first `n` bytes of `buffer`. */
  ghost predicate Wrote(a: State, b: State, k: nat, offset: nat, buffer: seq<byte>, n: nat) {
    && n <= |buffer| && PerBlock(a.fs.geo.blockSize) > 0 && Extended(a, b, k) && OthersKept(a, b, k)
    && Overlaid(a, b, k, offset, buffer[..n]) && Backed(b, k, offset, n)
    && b.inodes[k].size == (if n == 0 then a.inodes[k].size else Max(a.inodes[k].size, offset + n))
    && b.inodes[k].sectors == (if n == 0 || n < |buffer| then a.inodes[k].sectors
          else Sectors(a.fs.geo.blockSize, b.inodes[k].size))
    && Extent(a, b, k, offset, buffer, n)
  }

  /** When a write completes and what it allocates, from the state before it. */
  ghost predicate Extent(a: State, b: State, k: nat, offset: nat, buffer: seq<byte>, n: nat)
    requires k < |a.inodes| && PerBlock(a.fs.geo.blockSize) > 0
  {
    if buffer == [] then n == 0 && b == a else
    var first, last := BlockOf(a.fs.geo.blockSize, offset), BlockOf(a.fs.geo.blockSize, offset + |buffer| - 1);
    && (n == |buffer| <==> Affordable(a, k, first, last))
    && (AllMapped(a, k, first, last) ==> (n == |buffer| <==> CanReach(a, k, last)))
    && (AllMapped(a, k, first, last + 1) ==> n == |buffer| && SameTree(a, b, k))
    && (last < 12 ==> SameTops(a, b, k) && (n == 0 ==> b == a))
    && k < |b.inodes| && b.fs.geo == a.fs.geo
    && (n < |buffer| ==> Where(b, k, BlockOf(a.fs.geo.blockSize, offset + n)) == 0)
  }

  lemma CopiedThenResized(a: State, m: State, b: State, reserved: set<nat>, k: nat, offset: nat, buffer: seq<byte>,
                          n: nat, ino: Inode)
    requires Copied(a, m, k, offset, buffer, n) && m.Valid(reserved) && b == m.(inodes := m.inodes[k := ino])
    requires ino == m.inodes[k].(size := ino.size, sectors := ino.sectors)
    requires ino.size == if n == 0 then m.inodes[k].size else Max(m.inodes[k].size, offset + n)
    requires ino.sectors == if n < |buffer| then m.inodes[k].sectors else Sectors(a.fs.geo.blockSize, ino.size)
    ensures b.Valid(reserved) && Wrote(a, b, k, offset, buffer, n)
  {
    hide State.Valid, Blk, ByteAt, CanReach, State.Get, BlockOf, AllMapped, Backed;
    Resized(m, reserved, k, ino);
    ResizedExtends(a, m, b, k);
    SameBytes(m, b, k);
    SameTreeBacked(m, b, k, offset, n);
  }

  lemma SameTreeBacked(m: State, b: State, k: nat, offset: nat, n: nat)
    requires SameTree(m, b, k) && PerBlock(m.fs.geo.blockSize) > 0 && Backed(m, k, offset, n)
    ensures Backed(b, k, offset, n) && forall i: nat :: Where(b, k, i) == Where(m, k, i)
  {
    var bs := m.fs.geo.blockSize;
    forall i: nat ensures Where(b, k, i) == Where(m, k, i) {
      assert b.Get(k, SlotOf(bs, i)) == m.Get(k, SlotOf(bs, i));
    }
    hide BlockOf, Where;
  }

  lemma ResizedExtends(a: State, m: State, b: State, k: nat)
    requires Extended(a, m, k) && SameTree(m, b, k)
    requires b.inodes == m.inodes[k := m.inodes[k].(size := b.inodes[k].size, sectors := b.inodes[k].sectors)]
    requires forall h, s :: 0 <= h < |m.inodes| ==> b.Get(h, s) == m.Get(h, s)
    ensures Extended(a, b, k)
  {
    forall h, s | 0 <= h < |a.inodes| && (h != k || a.Get(h, s) != 0) ensures b.Get(h, s) == a.Get(h, s) {
      assert m.Get(h, s) == a.Get(h, s);
    }
    hide State.Get;
  }

  /** ext2_write_inode_data; `n` is the number of bytes copied. */
  method WriteInodeData(v: Volume, k: nat, offset: u32, buffer: seq<byte>) returns (r: int, ghost n: nat)
    requires v.Valid() && k < |v.inodes| == |v.table| && offset + |buffer| < 0x1_0000_0000
    modifies v`fs, v`used, v`inodes, v`owner, v`table
    ensures v.Valid() && Wrote(old(v.Now()), v.Now(), k, offset, buffer, n)
    ensures r == if buffer == [] then 0 else if n == 0 then -1 else Arith.Int32(n)
    ensures |v.inodes| == |old(v.inodes)|
    ensures v.table == if n == 0 then old(v.table) else old(v.table)[k := v.inodes[k]]
  {
    hide State.Valid, Copied, Wrote, Sectors;
    BlockSizeOk(v.Now(), v.reserved);
    if buffer == [] {
      WroteNothing(v.Now(), k, offset);
      return 0, 0;
    }
    var written := WriteLoop(v, k, offset, buffer);
    CopiedFacts(old(v.Now()), v.Now(), k, offset, buffer, written);
    ghost var m := v.Now();
    var ino := v.inodes[k];
    if written > 0 && offset + written > ino.size {
      ino := ino.(size := offset + written);
    }
    if written == |buffer| {
      ino := ino.(sectors := Sectors(v.fs.geo.blockSize, ino.size));
    }
    v.inodes := v.inodes[k := ino];
    CopiedThenResized(old(v.Now()), m, v.Now(), v.reserved, k, offset, buffer, written, ino);
    if written > 0 {
      v.table := v.table[k := ino];
    }
    return if written > 0 then Arith.Int32(written) else -1, written;
  }

  lemma WroteNothing(a: State, k: nat, offset: nat)
    requires k < |a.inodes| && PerBlock(a.fs.geo.blockSize) > 0
    ensures Wrote(a, a, k, offset, [], 0)
  {
    SameExtends(a, k);
    hide Extended;
  }

  lemma CopiedFacts(a: State, b: State, k: nat, offset: nat, buffer: seq<byte>, n: nat)
    requires Copied(a, b, k, offset, buffer, n)
    ensures n <= |buffer| && b.fs.geo == a.fs.geo && k < |b.inodes| == |a.inodes|
    ensures b.inodes[k] == a.inodes[k].(ptr := b.inodes[k].ptr)
  {
  }

  // ----- reading

  /** Word `i` of block `b` as the reader sees it: block 0 is a block like any other. */
  function RawEntry(disk: seq<Block>, b: nat, i: nat): u32 {
    if b < |disk| && 4 * i + 4 <= |disk[b]| then Le32(disk[b], 4 * i) else 0
  }

  /** The block the reader takes logical block `idx` from; it does not stop at a missing pointer block. */
  function ReaderBlock(disk: seq<Block>, bs: nat, ino: Inode, idx: nat): u32
    requires PerBlock(bs) > 0
  {
    if idx >= Limit(bs) then 0 else
    match SlotOf(bs, idx)
    case SingleEntry(i) => RawEntry(disk, ino.ptr[12], i)
    case DoubleLeaf(i, j) => if ino.ptr[13] < |disk| then RawEntry(disk, RawEntry(disk, ino.ptr[13], i), j) else 0
    case leaf => At(disk, ino, leaf)
  }

  /** The words of block 0 that stand in for a missing pointer chain are zero. */
  predicate HoleSafe(disk: seq<Block>, bs: nat, ino: Inode, idx: nat)
    requires PerBlock(bs) > 0
  {
    if idx >= Limit(bs) then true else
    match SlotOf(bs, idx)
    case SingleEntry(i) => ino.ptr[12] != 0 || RawEntry(disk, 0, i) == 0
    case DoubleLeaf(i, j) =>
      if ino.ptr[13] != 0 then Entry(disk, ino.ptr[13], i) != 0 || RawEntry(disk, 0, j) == 0
      else RawEntry(disk, RawEntry(disk, 0, i), j) == 0
    case _ => true
  }

  /** The reader agrees with the block map exactly where the chain is present or block 0 happens to read as zero. */
  lemma ReaderAgrees(disk: seq<Block>, bs: nat, ino: Inode, idx: nat)
    requires PerBlock(bs) > 0 && (forall b :: 0 <= b < |disk| ==> |disk[b]| == bs)
    requires ino.ptr[13] < |disk|
    ensures ReaderBlock(disk, bs, ino, idx) == Mapped(disk, bs, ino, idx) <==> HoleSafe(disk, bs, ino, idx)
  {
    if idx < Limit(bs) {
      var s := SlotOf(bs, idx);
      if s.DoubleLeaf? {
        Arith.DivMod(idx - 12 - PerBlock(bs), PerBlock(bs));
      }
    }
  }

  /** With an all-zero boot block every hole reads as zeros. */
  lemma ZeroBootBlockIsSafe(disk: seq<Block>, bs: nat, ino: Inode, idx: nat)
    requires PerBlock(bs) > 0 && |disk| > 0 && IsZero(disk[0])
    ensures HoleSafe(disk, bs, ino, idx)
  {
  }

  /** Byte `p` of the file as the reader delivers it. */
  function ReaderByte(disk: seq<Block>, bs: nat, ino: Inode, p: nat): byte
    requires PerBlock(bs) > 0
  {
    var b := ReaderBlock(disk, bs, ino, BlockOf(bs, p));
    if 0 < b < |disk| && Within(bs, p) < |disk[b]| then disk[b][Within(bs, p)] else 0
  }

  function ReaderBytes(disk: seq<Block>, bs: nat, ino: Inode, offset: nat, n: nat): (r: seq<byte>)
    requires PerBlock(bs) > 0
    ensures |r| == n && forall i :: 0 <= i < n ==> r[i] == ReaderByte(disk, bs, ino, offset + i)
  {
    seq<byte>(n, i requires 0 <= i => ReaderByte(disk, bs, ino, offset + i))
  }

  /** How many bytes a read delivers, with the 32-bit sum the bound check uses. */
  function ReadSize(isize: u32, offset: u32, size: u32): u32 {
    if offset >= isize then 0
    else if (offset + size) % 0x1_0000_0000 > isize then isize - offset
    else size
  }

  lemma ReaderDouble(disk: seq<Block>, bs: nat, ino: Inode, idx: nat, i: nat, j: nat)
    requires i < PerBlock(bs) && j < PerBlock(bs) && ino.ptr[13] < |disk|
    requires idx == 12 + PerBlock(bs) + i * PerBlock(bs) + j
    ensures ReaderBlock(disk, bs, ino, idx) == RawEntry(disk, RawEntry(disk, ino.ptr[13], i), j)
  {
    DoubleSlot(bs, i, j);
    hide SlotOf, Limit, RawEntry;
  }

  lemma ReaderNear(disk: seq<Block>, bs: nat, ino: Inode, i: nat)
    requires PerBlock(bs) > 0
    ensures i < 12 ==> ReaderBlock(disk, bs, ino, i) == ino.ptr[i]
    ensures i < PerBlock(bs) ==> ReaderBlock(disk, bs, ino, 12 + i) == RawEntry(disk, ino.ptr[12], i)
    ensures ReaderBlock(disk, bs, ino, Limit(bs) + i) == 0
  {
    hide RawEntry;
    assert PerBlock(bs) * PerBlock(bs) >= 0;
  }

  /** A read delivers what lies between the offset and the end of the file, at most `size` bytes, unless
      the end of the request wraps past 2^32 to a place inside the file: then it is not cut at all. */
  lemma ReadBounds(isize: u32, offset: u32, size: u32)
    ensures var n, wraps := ReadSize(isize, offset, size), 0x1_0000_0000 <= offset + size <= 0x1_0000_0000 + isize;
      && n == (if offset >= isize then 0 else if wraps then size else Min(size, isize - offset))
      && (offset < isize ==> (offset + n <= isize <==> !wraps))
  {
    assert (offset + size) % 0x1_0000_0000 ==
      if offset + size < 0x1_0000_0000 then offset + size else offset + size - 0x1_0000_0000;
  }

  /** The same layout as the block map's, reached without the stops at a missing pointer block. */
  lemma ReaderLayout(disk: seq<Block>, bs: nat, ino: Inode, i: nat, j: nat)
    requires bs / 4 > 0
    ensures var p := bs / 4;
      && (i < 12 ==> ReaderBlock(disk, bs, ino, i) == ino.ptr[i])
      && (i < p ==> ReaderBlock(disk, bs, ino, 12 + i) == RawEntry(disk, ino.ptr[12], i))
      && (i < p && j < p && ino.ptr[13] < |disk| ==>
            ReaderBlock(disk, bs, ino, 12 + p + i * p + j) == RawEntry(disk, RawEntry(disk, ino.ptr[13], i), j))
      && ReaderBlock(disk, bs, ino, 12 + p + p * p + i) == 0
  {
    hide ReaderBlock, RawEntry;
    var p := bs / 4;
    assert i * p >= 0;
    ReaderNear(disk, bs, ino, i);
    if i < p && j < p && ino.ptr[13] < |disk| {
      ReaderDouble(disk, bs, ino, 12 + p + i * p + j, i, j);
    }
  }

  /** Byte `at` of logical block `idx` is byte `at` of the block the reader takes it from. */
  lemma ReaderByteAt(disk: seq<Block>, bs: nat, ino: Inode, idx: nat, at: nat)
    requires PerBlock(bs) > 0 && at < bs
    ensures ReaderByte(disk, bs, ino, idx * bs + at) == Fetched(disk, ReaderBlock(disk, bs, ino, idx), at)
  {
    hide ReaderBlock;
    Arith.Split(bs, idx, at, idx * bs + at);
  }

  /** Where the delivered bytes come from, by position: byte `at` of a direct block, of a block named
      by word `i` of the single-indirect block, or of one named by word `j` of the block that word `i`
      of the double-indirect block names. */
  ghost predicate Delivered(disk: seq<Block>, bs: nat, ino: Inode, offset: nat, out: seq<byte>) {
    var p := bs / 4;
    && (forall q, i, at :: 0 <= q < |out| && 0 <= i < 12 && 0 <= at < bs && offset + q == i * bs + at ==>
          out[q] == Fetched(disk, ino.ptr[i], at))
    && (forall q, i: nat, at :: 0 <= q < |out| && i < p && 0 <= at < bs && offset + q == (12 + i) * bs + at ==>
          out[q] == Fetched(disk, RawEntry(disk, ino.ptr[12], i), at))
    && (ino.ptr[13] < |disk| ==> forall q, i: nat, j: nat, at ::
          0 <= q < |out| && i < p && j < p && 0 <= at < bs && offset + q == (12 + p + i * p + j) * bs + at ==>
          out[q] == Fetched(disk, RawEntry(disk, RawEntry(disk, ino.ptr[13], i), j), at))
  }

  lemma FromDirect(disk: seq<Block>, bs: nat, ino: Inode, i: nat, at: nat, q: nat)
    requires PerBlock(bs) > 0 && at < bs && i < 12 && q == i * bs + at
    ensures ReaderByte(disk, bs, ino, q) == Fetched(disk, ino.ptr[i], at)
  {
    hide ReaderBlock, ReaderByte, Fetched;
    ReaderByteAt(disk, bs, ino, i, at);
    ReaderLayout(disk, bs, ino, i, 0);
  }

  lemma FromSingle(disk: seq<Block>, bs: nat, ino: Inode, i: nat, at: nat, q: nat)
    requires at < bs && i < bs / 4 && q == (12 + i) * bs + at
    ensures ReaderByte(disk, bs, ino, q) == Fetched(disk, RawEntry(disk, ino.ptr[12], i), at)
  {
    hide ReaderBlock, ReaderByte, Fetched, RawEntry;
    ReaderByteAt(disk, bs, ino, 12 + i, at);
    ReaderLayout(disk, bs, ino, i, 0);
  }

  lemma FromDouble(disk: seq<Block>, bs: nat, ino: Inode, i: nat, j: nat, at: nat, q: nat)
    requires at < bs && i < bs / 4 && j < bs / 4 && q == (12 + bs / 4 + i * (bs / 4) + j) * bs + at
    requires ino.ptr[13] < |disk|
    ensures ReaderByte(disk, bs, ino, q) == Fetched(disk, RawEntry(disk, RawEntry(disk, ino.ptr[13], i), j), at)
  {
    hide ReaderBlock, ReaderByte, Fetched, RawEntry;
    assert i * (bs / 4) >= 0;
    ReaderByteAt(disk, bs, ino, 12 + bs / 4 + i * (bs / 4) + j, at);
    ReaderLayout(disk, bs, ino, i, j);
  }

  lemma BytesDelivered(disk: seq<Block>, bs: nat, ino: Inode, offset: nat, n: nat)
    requires PerBlock(bs) > 0
    ensures Delivered(disk, bs, ino, offset, ReaderBytes(disk, bs, ino, offset, n))
  {
    hide ReaderByte, Fetched, RawEntry;
    var p, out := bs / 4, ReaderBytes(disk, bs, ino, offset, n);
    forall q, i, at | 0 <= q < |out| && 0 <= i < 12 && 0 <= at < bs && offset + q == i * bs + at
      ensures out[q] == Fetched(disk, ino.ptr[i], at)
    {
      FromDirect(disk, bs, ino, i, at, offset + q);
    }
    forall q, i: nat, at | 0 <= q < |out| && i < p && 0 <= at < bs && offset + q == (12 + i) * bs + at
      ensures out[q] == Fetched(disk, RawEntry(disk, ino.ptr[12], i), at)
    {
      FromSingle(disk, bs, ino, i, at, offset + q);
    }
    forall q, i: nat, j: nat, at | 0 <= q < |out| && i < p && j < p && 0 <= at < bs
        && offset + q == (12 + p + i * p + j) * bs + at && ino.ptr[13] < |disk|
      ensures out[q] == Fetched(disk, RawEntry(disk, RawEntry(disk, ino.ptr[13], i), j), at)
    {
      FromDouble(disk, bs, ino, i, j, at, offset + q);
    }
  }

  lemma ReaderChunk(disk: seq<Block>, bs: nat, ino: Inode, offset: nat, out: seq<byte>, idx: nat, at: nat,
                    chunk: seq<byte>, b: u32)
    requires PerBlock(bs) > 0 && at + |chunk| <= bs && Offset(bs, idx, at) == offset + |out|
    requires b == ReaderBlock(disk, bs, ino, idx) && (0 < b ==> b < |disk| && |disk[b]| == bs)
    requires chunk == if b == 0 then Zeros(|chunk|) else disk[b][at..at + |chunk|]
    requires out == ReaderBytes(disk, bs, ino, offset, |out|)
    ensures out + chunk == ReaderBytes(disk, bs, ino, offset, |out| + |chunk|)
  {
    hide ReaderBlock, ReaderByte;
    forall i | 0 <= i < |chunk| ensures chunk[i] == ReaderByte(disk, bs, ino, offset + |out| + i) {
      ReaderByteAt(disk, bs, ino, idx, at + i);
    }
  }

  /** No block the transfer needs lies off the device. */
  ghost predicate Readable(disk: seq<Block>, bs: nat, ino: Inode, offset: nat, n: nat)
    requires PerBlock(bs) > 0
  {
    forall p :: offset <= p < offset + n ==> ReaderBlock(disk, bs, ino, BlockOf(bs, p)) < |disk|
  }

  /** ext2_read_inode_data. */
  method ReadInodeData(disk: seq<Block>, bs: nat, ino: Inode, offset: u32, size: u32) returns (r: int, out: seq<byte>)
    requires PerBlock(bs) > 0 && disk != [] && forall b :: 0 <= b < |disk| ==> |disk[b]| == bs
    ensures Readable(disk, bs, ino, offset, ReadSize(ino.size, offset, size)) ==>
      && out == ReaderBytes(disk, bs, ino, offset, ReadSize(ino.size, offset, size))
      && r == Arith.Int32(ReadSize(ino.size, offset, size))
    ensures !Readable(disk, bs, ino, offset, ReadSize(ino.size, offset, size)) ==> r == -1
    ensures Delivered(disk, bs, ino, offset, out)
  {
    hide ReaderBlock, ReaderByte, BlockOf, Within, Offset, Delivered;
    var n := ReadSize(ino.size, offset, size);
    out := [];
    StartOffset(bs, offset);
    var idx: nat, at: nat := BlockOf(bs, offset), Within(bs, offset);
    while |out| < n
      invariant |out| <= n && at < bs && (|out| < n ==> Offset(bs, idx, at) == offset + |out|)
      invariant out == ReaderBytes(disk, bs, ino, offset, |out|) && Readable(disk, bs, ino, offset, |out|)
      decreases n - |out|
    {
      ChunkArith(bs, offset, n, |out|, idx, at);
      ChunkBlocks(bs, offset, |out|, idx, at, n);
      var b := ReaderBlock(disk, bs, ino, idx);
      var count := ChunkSize(bs, at, n - |out|);
      if b >= |disk| {
        BytesDelivered(disk, bs, ino, offset, |out|);
        return -1, out;
      }
      var chunk := if b == 0 then Zeros(count) else disk[b][at..at + count];
      ReaderChunk(disk, bs, ino, offset, out, idx, at, chunk, b);
      out, idx, at := out + chunk, idx + 1, 0;
    }
    BytesDelivered(disk, bs, ino, offset, n);
    return Arith.Int32(n), out;
  }

  lemma ChunkBlocks(bs: nat, offset: nat, done: nat, idx: nat, at: nat, n: nat)
    requires at < bs && Offset(bs, idx, at) == offset + done && done < n
    ensures forall p :: offset + done <= p < offset + done + ChunkSize(bs, at, n - done) ==> BlockOf(bs, p) == idx
  {
    forall p | offset + done <= p < offset + done + ChunkSize(bs, at, n - done) ensures BlockOf(bs, p) == idx {
      Arith.Split(bs, idx, at + (p - offset - done), p);
    }
  }

  // ----- read after write

  /** The pointer blocks on the way to logical block `idx` are there; its own pointer may be null. */
  ghost predicate Chain(s: State, k: nat, idx: nat)
    requires k < |s.inodes| && PerBlock(s.fs.geo.blockSize) > 0
  {
    idx < Limit(s.fs.geo.blockSize) ==>
      match SlotOf(s.fs.geo.blockSize, idx)
      case SingleEntry(_) => s.Get(k, Single) != 0
      case DoubleLeaf(i, _) => s.Get(k, Double) != 0 && s.Get(k, DoubleEntry(i)) != 0
      case _ => true
  }

  lemma MappedChain(s: State, k: nat, idx: nat)
    requires k < |s.inodes| && PerBlock(s.fs.geo.blockSize) > 0 && Where(s, k, idx) != 0
    ensures Chain(s, k, idx)
  {
  }

  lemma ChainSafe(s: State, k: nat, idx: nat)
    requires k < |s.inodes| && PerBlock(s.fs.geo.blockSize) > 0 && Chain(s, k, idx)
    ensures HoleSafe(s.fs.disk, s.fs.geo.blockSize, s.inodes[k], idx)
  {
  }

  lemma ChainKept(a: State, b: State, k: nat, h: nat, idx: nat)
    requires Extended(a, b, k) && PerBlock(a.fs.geo.blockSize) > 0 && h < |a.inodes| && Chain(a, h, idx)
    ensures Chain(b, h, idx)
  {
    forall s | a.Get(h, s) != 0 ensures b.Get(h, s) == a.Get(h, s) {
    }
    hide State.Get;
  }

  /** Where the pointer chain is present, reader and block map deliver the same byte, in holes too. */
  lemma ReaderSees(s: State, reserved: set<nat>, k: nat, p: nat)
    requires s.Valid(reserved) && k < |s.inodes| && PerBlock(s.fs.geo.blockSize) > 0
    requires Chain(s, k, BlockOf(s.fs.geo.blockSize, p))
    ensures ReaderBlock(s.fs.disk, s.fs.geo.blockSize, s.inodes[k], BlockOf(s.fs.geo.blockSize, p)) < |s.fs.disk|
    ensures ReaderByte(s.fs.disk, s.fs.geo.blockSize, s.inodes[k], p) == ByteAt(s, k, p)
  {
    hide Fs.Sound;
    s.fs.SoundFacts(s.used, reserved);
    var bs := s.fs.geo.blockSize;
    var idx := BlockOf(bs, p);
    assert s.Get(k, SlotOf(bs, idx)) != 0 ==> s.Get(k, SlotOf(bs, idx)) in s.owner;
    assert s.Get(k, Double) != 0 ==> s.Get(k, Double) in s.owner;
    ChainSafe(s, k, idx);
    ReaderAgrees(s.fs.disk, bs, s.inodes[k], idx);
    hide ReaderBlock, HoleSafe, Chain;
  }

  lemma BackedBlock(s: State, k: nat, offset: nat, n: nat, p: nat)
    requires k < |s.inodes| && PerBlock(s.fs.geo.blockSize) > 0 && Backed(s, k, offset, n) && offset <= p < offset + n
    ensures Where(s, k, BlockOf(s.fs.geo.blockSize, p)) != 0
  {
    var bs := s.fs.geo.blockSize;
    Arith.DivMod(offset, bs);
    Arith.DivMod(p, bs);
    Arith.DivMod(offset + n - 1, bs);
    Arith.Lex(bs, p / bs, p % bs, offset / bs, offset % bs);
    Arith.Lex(bs, (offset + n - 1) / bs, (offset + n - 1) % bs, p / bs, p % bs);
    hide Where;
  }

  /** Reading back what a write copied gives exactly those bytes, across direct, single- and
      double-indirect blocks. */
  lemma ReadAfterWrite(a: State, b: State, reserved: set<nat>, k: nat, offset: u32, buffer: seq<byte>, n: nat)
    requires b.Valid(reserved) && Wrote(a, b, k, offset, buffer, n) && offset + |buffer| < 0x1_0000_0000
    ensures ReadSize(b.inodes[k].size, offset, n) == n
    ensures Readable(b.fs.disk, b.fs.geo.blockSize, b.inodes[k], offset, n)
    ensures ReaderBytes(b.fs.disk, b.fs.geo.blockSize, b.inodes[k], offset, n) == buffer[..n]
  {
    hide State.Valid, ReaderByte, ReaderBlock, ByteAt, Backed, Extent;
    forall p | offset <= p < offset + n
      ensures ReaderBlock(b.fs.disk, b.fs.geo.blockSize, b.inodes[k], BlockOf(b.fs.geo.blockSize, p)) < |b.fs.disk|
      ensures ReaderByte(b.fs.disk, b.fs.geo.blockSize, b.inodes[k], p) == buffer[p - offset]
    {
      BackedBlock(b, k, offset, n, p);
      MappedChain(b, k, BlockOf(b.fs.geo.blockSize, p));
      ReaderSees(b, reserved, k, p);
    }
  }

  /** Every other byte reads as before, holes included, unless a pointer block on its way was missing:
      of this file outside the written range, and of every other file. */
  lemma OtherBytesKept(a: State, b: State, reserved: set<nat>, k: nat, offset: nat, buffer: seq<byte>, n: nat, h: nat,
                       p: nat)
    requires a.Valid(reserved) && b.Valid(reserved) && Wrote(a, b, k, offset, buffer, n) && h < |a.inodes|
    requires Chain(a, h, BlockOf(a.fs.geo.blockSize, p)) && (h != k || !(offset <= p < offset + n))
    ensures ReaderByte(b.fs.disk, b.fs.geo.blockSize, b.inodes[h], p) ==
      ReaderByte(a.fs.disk, a.fs.geo.blockSize, a.inodes[h], p)
  {
    hide State.Valid, ReaderByte, ReaderBlock, Extent, Backed, State.Get, Chain, Blk;
    var idx := BlockOf(a.fs.geo.blockSize, p);
    ChainKept(a, b, k, h, idx);
    ReaderSees(a, reserved, h, p);
    ReaderSees(b, reserved, h, p);
    assert h != k ==> Blk(b, h, idx) == Blk(a, h, idx);
  }

  /** Write, then read the range back. */
  method WriteThenRead(v: Volume, k: nat, offset: u32, buffer: seq<byte>) returns (r: int, out: seq<byte>)
    requires v.Valid() && k < |v.inodes| == |v.table| && offset + |buffer| < 0x1_0000_0000
    modifies v`fs, v`used, v`inodes, v`owner, v`table
    ensures v.Valid() && r <= |buffer| && (r >= 0 ==> out == buffer[..r])
  {
    hide State.Valid, Wrote, ReaderBytes, Readable, Delivered;
    ghost var n;
    ghost var a := v.Now();
    r, n := WriteInodeData(v, k, offset, buffer);
    out := [];
    WroteSize(a, v.Now(), k, offset, buffer, n);
    if r > 0 {
      ReadAfterWrite(a, v.Now(), v.reserved, k, offset, buffer, n);
      DiskShape(v.Now(), v.reserved);
      var got;
      got, out := ReadInodeData(v.fs.disk, v.fs.geo.blockSize, v.inodes[k], offset, r);
    }
  }

  lemma WroteSize(a: State, b: State, k: nat, offset: nat, buffer: seq<byte>, n: nat)
    requires Wrote(a, b, k, offset, buffer, n)
    ensures n <= |buffer|
  {
  }

  lemma DiskShape(s: State, reserved: set<nat>)
    requires s.Valid(reserved)
    ensures PerBlock(s.fs.geo.blockSize) > 0 && s.fs.disk != [] && forall b :: 0 <= b < |s.fs.disk| ==>
      |s.fs.disk[b]| == s.fs.geo.blockSize
  {
    s.fs.SoundFacts(s.used, reserved);
    hide Fs.Sound;
  }
}
