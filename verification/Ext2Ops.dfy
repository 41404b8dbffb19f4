/** ext2_vfs_create and ext2_vfs_unlink, and what they conserve together. */
module Ext2Ops {
  import opened Ext2Bytes
  import opened Ext2Tree
  import opened Ext2Volume
  import opened Ext2Files
  import opened Ext2Data
  import opened Ext2Io
  import opened Ext2Vfs
  import Dir = Ext2Dir
  import Arith

  // ----- changes to metadata and to inodes

  /** Only metadata blocks and marks changed: trees and contents are as before. */
  ghost predicate MetaOnly(a: State, b: State, reserved: set<nat>) {
    && b.fs.geo == a.fs.geo && b.fs.Sound(b.used, reserved) && b.inodes == a.inodes && b.owner == a.owner
    && |b.fs.disk| == |a.fs.disk| && (forall i :: i in b.owner ==> i in b.used.blocks)
    && forall i :: 0 <= i < |a.fs.disk| && i !in reserved ==> b.fs.disk[i] == a.fs.disk[i]
  }

  lemma MetaKeeps(a: State, b: State, reserved: set<nat>, t: nat)
    requires a.Valid(reserved) && MetaOnly(a, b, reserved)
    ensures b.Valid(reserved) && OtherFiles(a, b, t)
    ensures forall h, s :: 0 <= h < |a.inodes| ==> b.Get(h, s) == a.Get(h, s)
  {
    hide Fs.Sound;
    BlockSizeOk(a, reserved);
    PointersKept(a.fs.disk, b.fs.disk, a.inodes, a.owner);
    forall h, i: nat | 0 <= h < |a.inodes| ensures Blk(b, h, i) == Blk(a, h, i) {
      var bs := a.fs.geo.blockSize;
      if i < Limit(bs) {
        var at := a.Get(h, SlotOf(bs, i));
        assert at != 0 ==> at in a.owner && at !in reserved;
      }
    }
  }

  const NO_POINTERS: Pointers := [0, 0, 0, 0, 0, 0, 0, 0, 0, 0, 0, 0, 0, 0, 0]

  /** The owner map without the blocks of file `t`. */
  ghost function Disowned(owner: map<nat, Ref>, t: nat): map<nat, Ref> {
    map b | b in owner && owner[b].file != t :: owner[b]
  }

  /** Replacing inode `t` by one without pointers. */
  lemma Emptied(a: State, reserved: set<nat>, t: nat, ino: Inode, b: State)
    requires a.Valid(reserved) && t < |a.inodes| && ino.ptr == NO_POINTERS
    requires b == a.(inodes := a.inodes[t := ino], owner := Disowned(a.owner, t))
    ensures b.Valid(reserved) && OtherFiles(a, b, t)
    ensures forall s :: b.Get(t, s) == 0
  {
    hide Fs.Sound;
    BlockSizeOk(a, reserved);
    assert forall s :: b.Get(t, s) == 0;
    assert forall h, s :: 0 <= h < |a.inodes| && h != t ==>
      At(b.fs.disk, b.inodes[h], s) == At(a.fs.disk, a.inodes[h], s);
    hide At;
  }

  /** Clearing direct pointer `i` of file `t`, whose block `x` is then nobody's. */
  lemma Unhooked(a: State, reserved: set<nat>, t: nat, i: nat, b: State)
    requires a.Valid(reserved) && t < |a.inodes| && i < 12 && a.inodes[t].ptr[i] != 0
    requires b == a.(inodes := WithPtr(a.inodes, t, i, 0), owner := a.owner - {a.inodes[t].ptr[i]})
    ensures b.Valid(reserved) && OtherFiles(a, b, t)
    ensures forall s :: b.Get(t, s) == if s == Direct(i) then 0 else a.Get(t, s)
    ensures a.inodes[t].ptr[i] in a.owner && a.owner[a.inodes[t].ptr[i]] == Ref(t, Direct(i))
  {
    hide Fs.Sound;
    BlockSizeOk(a, reserved);
    var x := a.inodes[t].ptr[i];
    assert a.Get(t, Direct(i)) == x;
    assert forall h, s :: 0 <= h < |a.inodes| ==>
      At(b.fs.disk, b.inodes[h], s) == if h == t && s == Direct(i) then 0 else At(a.fs.disk, a.inodes[h], s);
    hide At;
  }

  /** Rewriting inode `t` without touching its pointers. */
  lemma Restamped(a: State, reserved: set<nat>, t: nat, ino: Inode, b: State)
    requires a.Valid(reserved) && t < |a.inodes| && ino.ptr == a.inodes[t].ptr
    requires b == a.(inodes := a.inodes[t := ino])
    ensures b.Valid(reserved) && OtherFiles(a, b, t)
    ensures forall s :: b.Get(t, s) == a.Get(t, s)
    ensures PerBlock(a.fs.geo.blockSize) > 0 && forall i: nat :: Blk(b, t, i) == Blk(a, t, i)
  {
    BlockSizeOk(a, reserved);
    Resized(a, reserved, t, ino);
    hide State.Valid, State.Get, Blk;
  }

  /** Two sound volumes with the same marks have the same free counts. */
  lemma SameMarksSameCounts(a: Fs, b: Fs, used: Marks, reserved: set<nat>)
    requires a.Sound(used, reserved) && b.Sound(used, reserved) && a.geo == b.geo
    ensures a.sb == b.sb && forall g :: 0 <= g < |a.groups| ==> a.groups[g].count == b.groups[g].count
  {
    forall g, k | 0 <= g < |a.groups| ensures a.groups[g].count.Free(k) == b.groups[g].count.Free(k) {
      SameMarksAt(a, b, used, reserved, k, g);
    }
    forall g | 0 <= g < |a.groups| ensures a.groups[g].count == b.groups[g].count {
      assert a.groups[g].count.Free(Blocks) == b.groups[g].count.Free(Blocks);
      assert a.groups[g].count.Free(Inodes) == b.groups[g].count.Free(Inodes);
    }
    SameSum(a.groups, b.groups, Blocks);
    SameSum(a.groups, b.groups, Inodes);
    hide CountClear, Fs.Marked, Fs.Shape, FreeSum;
  }

  lemma SameMarksAt(a: Fs, b: Fs, used: Marks, reserved: set<nat>, k: Kind, g: nat)
    requires a.Sound(used, reserved) && b.Sound(used, reserved) && a.geo == b.geo && g < |a.groups|
    ensures |b.groups| == |a.groups| && a.groups[g].count.Free(k) == b.groups[g].count.Free(k)
  {
    assert a.CountedAt(k, g) && b.CountedAt(k, g);
    forall i | 0 <= i < a.geo.Units(k, g) ensures BitSet(a.Bits(k, g), i) == BitSet(b.Bits(k, g), i) {
      assert a.geo.Number(k, g, i) in used.Of(k) <==> BitSet(a.Bits(k, g), i);
    }
    CountClearSame(a.Bits(k, g), b.Bits(k, g), a.geo.Units(k, g));
  }

  lemma {:induction false} SameSum(a: seq<Group>, b: seq<Group>, k: Kind)
    requires |a| == |b| && forall g :: 0 <= g < |a| ==> a[g].count.Free(k) == b[g].count.Free(k)
    ensures FreeSum(a, k) == FreeSum(b, k)
  {
    if a != [] {
      SameSum(a[..|a| - 1], b[..|a| - 1], k);
    }
  }

  // ----- releasing a file

  /** The blocks the first `n` direct pointers hold. */
  ghost function DirectBlocks(ino: Inode, n: nat): set<nat>
    requires n <= 12
  {
    set i | 0 <= i < n && ino.ptr[i] != 0 :: ino.ptr[i]
  }

  /** The first `n` direct blocks of file `t` were freed and nothing else. */
  ghost predicate Drained(a: State, b: State, t: nat, n: nat) {
    && t < |a.inodes| && n <= 12 && OtherFiles(a, b, t)
    && b.inodes[t] == a.inodes[t].(ptr := b.inodes[t].ptr)
    && (forall i :: 0 <= i < 15 ==> b.inodes[t].ptr[i] == if i < n then 0 else a.inodes[t].ptr[i])
    && (forall s :: b.Get(t, s) == if s.Direct? && s.i < n then 0 else a.Get(t, s))
    && b.used.inodes == a.used.inodes && b.used.blocks == a.used.blocks - DirectBlocks(a.inodes[t], n)
    && b.owner == a.owner - DirectBlocks(a.inodes[t], n)
  }

  lemma DrainStart(a: State, t: nat)
    requires t < |a.inodes| && PerBlock(a.fs.geo.blockSize) > 0
    ensures Drained(a, a, t, 0)
  {
    assert DirectBlocks(a.inodes[t], 0) == {};
  }

  lemma DrainSkip(a: State, b: State, t: nat, n: nat)
    requires Drained(a, b, t, n) && n < 12 && b.inodes[t].ptr[n] == 0
    ensures Drained(a, b, t, n + 1)
  {
    assert b.inodes[t].ptr[n] == a.inodes[t].ptr[n];
    assert DirectBlocks(a.inodes[t], n + 1) == DirectBlocks(a.inodes[t], n);
    assert a.Get(t, Direct(n)) == a.inodes[t].ptr[n];
    hide OtherFiles;
  }

  lemma DrainStep(a: State, m: State, b: State, reserved: set<nat>, t: nat, n: nat, x: u32)
    requires Drained(a, m, t, n) && m.Valid(reserved) && n < 12 && x == m.inodes[t].ptr[n] != 0
    requires b.inodes == WithPtr(m.inodes, t, n, 0) && b.owner == m.owner - {x}
    requires b.used == m.used.Switched(Blocks, x, false) && b.fs.geo == m.fs.geo && b.fs.Sound(b.used, reserved)
    requires |b.fs.disk| == |m.fs.disk| && forall i :: 0 <= i < |m.fs.disk| && i !in reserved ==>
      b.fs.disk[i] == m.fs.disk[i]
    ensures b.Valid(reserved) && Drained(a, b, t, n + 1)
  {
    hide Fs.Sound;
    var u := m.(inodes := b.inodes, owner := b.owner);
    Unhooked(m, reserved, t, n, u);
    assert MetaOnly(u, b, reserved);
    MetaKeeps(u, b, reserved, t);
    OtherFilesTwice(a, m, u, t);
    OtherFilesTwice(a, u, b, t);
    DrainSets(a, m, b, t, n, x);
    hide OtherFiles, State.Valid, State.Get, MetaOnly;
  }

  lemma DrainSets(a: State, m: State, b: State, t: nat, n: nat, x: u32)
    requires Drained(a, m, t, n) && n < 12 && x == m.inodes[t].ptr[n] != 0
    requires b.owner == m.owner - {x} && b.used == m.used.Switched(Blocks, x, false)
    ensures b.used.inodes == a.used.inodes && b.used.blocks == a.used.blocks - DirectBlocks(a.inodes[t], n + 1)
    ensures b.owner == a.owner - DirectBlocks(a.inodes[t], n + 1)
  {
    assert x == a.inodes[t].ptr[n];
    assert DirectBlocks(a.inodes[t], n + 1) == DirectBlocks(a.inodes[t], n) + {x};
    hide OtherFiles, State.Get;
  }

  /** An owned block can be freed. */
  lemma CanFree(s: State, reserved: set<nat>, t: nat, n: nat)
    requires s.Valid(reserved) && t < |s.inodes| && n < 12 && s.inodes[t].ptr[n] != 0
    ensures var x := s.inodes[t].ptr[n];
      && x in s.used.blocks && x !in reserved && s.fs.geo.Valid() && x < s.fs.geo.blocksCount
      && s.fs.geo.InRange(Blocks, x)
  {
    assert s.Get(t, Direct(n)) == s.inodes[t].ptr[n];
    s.fs.SoundFacts(s.used, reserved);
    hide Fs.Shape, Fs.Counted, Fs.Marked, Geometry.InRange;
  }

  /** ext2_free_inode_blocks: only the direct blocks. */
  method FreeInodeBlocks(v: Volume, t: nat)
    requires v.Valid() && t < |v.inodes|
    modifies v`fs, v`used, v`inodes, v`owner
    ensures v.Valid() && Drained(old(v.Now()), v.Now(), t, 12)
  {
    BlockSizeOk(v.Now(), v.reserved);
    hide State.Valid, Fs.Sound, Drained;
    ghost var a := v.Now();
    DrainStart(a, t);
    for i := 0 to 12
      invariant v.Valid() && |v.inodes| == |a.inodes| && Drained(a, v.Now(), t, i)
    {
      FreeDirect(v, a, t, i);
    }
  }

  method FreeDirect(v: Volume, ghost a: State, t: nat, i: nat)
    requires v.Valid() && i < 12 && t < |v.inodes| && Drained(a, v.Now(), t, i)
    modifies v`fs, v`used, v`inodes, v`owner
    ensures v.Valid() && |v.inodes| == |old(v.inodes)| && Drained(a, v.Now(), t, i + 1)
  {
    hide State.Valid, Drained, Geometry.InRange;
    ghost var m := v.Now();
    var x := v.inodes[t].ptr[i];
    if x == 0 {
      DrainSkip(a, m, t, i);
      return;
    }
    CanFree(m, v.reserved, t, i);
    ValidIsSound(m, v.reserved);
    hide Fs.Sound, Fs.Counted, Fs.Shape, Counters.Plus;
    var r := v.FreeUnit(Blocks, x, NoFault);
    v.inodes := WithPtr(v.inodes, t, i, 0);
    v.owner := v.owner - {x};
    DrainStep(a, m, v.Now(), v.reserved, t, i, x);
  }

  lemma ValidIsSound(s: State, reserved: set<nat>)
    requires s.Valid(reserved)
    ensures s.fs.Sound(s.used, reserved)
  {
  }

  /** File `t` was deleted: its inode and its direct blocks are free, its size is zero. */
  ghost predicate Released(a: State, b: State, t: nat) {
    && t < |a.inodes| && OtherFiles(a, b, t)
    && b.inodes[t] == a.inodes[t].(ptr := b.inodes[t].ptr, dtime := 1, size := 0)
    && (forall i :: 0 <= i < 15 ==> b.inodes[t].ptr[i] == if i < 12 then 0 else a.inodes[t].ptr[i])
    && (forall s :: b.Get(t, s) == if s.Direct? then 0 else a.Get(t, s))
    && b.used == Marks(a.used.blocks - DirectBlocks(a.inodes[t], 12), a.used.inodes - {t})
    && b.owner == a.owner - DirectBlocks(a.inodes[t], 12)
  }

  lemma ReleasedFrom(a: State, m: State, s: State, b: State, reserved: set<nat>, t: nat)
    requires Drained(a, m, t, 12) && m.Valid(reserved)
    requires s == m.(inodes := m.inodes[t := m.inodes[t].(dtime := 1, size := 0)])
    requires MetaOnly(s, b, reserved) && b.used == Marks(m.used.blocks, m.used.inodes - {t})
    ensures b.Valid(reserved) && Released(a, b, t)
  {
    Restamped(m, reserved, t, s.inodes[t], s);
    MetaKeeps(s, b, reserved, t);
    OtherFilesTwice(a, m, s, t);
    OtherFilesTwice(a, s, b, t);
    assert forall i: nat :: i >= 12 ==> a.Get(t, Direct(i)) == 0;
    hide OtherFiles, State.Valid, State.Get, DirectBlocks;
  }

  /** Deletion returns every block of the file exactly when it has no indirect blocks. */
  lemma ReleasesAll(a: State, b: State, reserved: set<nat>, t: nat)
    requires b.Valid(reserved) && Released(a, b, t)
    ensures (forall x :: x in b.owner ==> b.owner[x].file != t) <==>
      a.inodes[t].ptr[12] == 0 && a.inodes[t].ptr[13] == 0
  {
    hide Fs.Sound;
    assert b.Get(t, Single) == a.inodes[t].ptr[12] && b.Get(t, Double) == a.inodes[t].ptr[13];
    if a.inodes[t].ptr[12] == 0 && a.inodes[t].ptr[13] == 0 {
      forall x | x in b.owner ensures b.owner[x].file != t {
        assert b.Get(b.owner[x].file, b.owner[x].slot) == x;
      }
    }
  }

  /** The end of ext2_vfs_unlink when the last link goes. */
  method ReleaseInode(v: Volume, t: u32)
    requires v.Valid() && t < |v.inodes| == |v.table| && v.fs.geo.Valid() && v.fs.geo.InRange(Inodes, t)
    modifies v`fs, v`used, v`inodes, v`owner, v`table
    ensures v.Valid() && Released(old(v.Now()), v.Now(), t) && v.table == old(v.table)[t := v.inodes[t]]
  {
    hide State.Valid, Fs.Sound, Drained, Released, Geometry.InRange, Fs.Counted, Fs.Shape, Counters.Plus;
    ghost var a := v.Now();
    FreeInodeBlocks(v, t);
    ghost var m := v.Now();
    DrainedFacts(a, m, t);
    v.inodes := v.inodes[t := v.inodes[t].(dtime := 1, size := 0)];
    v.table := v.table[t := v.inodes[t]];
    ghost var s := v.Now();
    Restamped(m, v.reserved, t, s.inodes[t], s);
    ValidIsSound(s, v.reserved);
    hide OtherFiles;
    OwnersMarked(s, v.reserved);
    var r := v.FreeUnit(Inodes, t, NoFault);
    ReleasedFrom(a, m, s, v.Now(), v.reserved, t);
  }

  lemma DrainedFacts(a: State, b: State, t: nat)
    requires Drained(a, b, t, 12)
    ensures |b.inodes| == |a.inodes| && b.fs.geo == a.fs.geo && t < |b.inodes|
  {
  }

  lemma OwnersMarked(s: State, reserved: set<nat>)
    requires s.Valid(reserved)
    ensures forall b :: b in s.owner ==> b in s.used.blocks
  {
  }

  // ----- unlink

  const DOT: Dir.Name := [46]
  const DOT_DOT: Dir.Name := [46, 46]

  predicate IsDir(ino: Inode) { ino.mode / 0x1000 % 16 == 4 }

  /** Only the entries for the directory itself and its parent. */
  ghost predicate NoChildren(es: seq<Dir.Entry>) {
    forall e :: e in es ==> e.name == DOT || e.name == DOT_DOT
  }

  /** ext2_is_dir_empty, on the directory's bytes. */
  method IsDirEmpty(d: seq<byte>) returns (r: bool)
    requires Dir.Tiled(d, 0)
    ensures r == NoChildren(Dir.Live(d, 0))
  {
    hide Dir.Tiled, Dir.Live, Dir.Next;
    var o: nat, count: nat := 0, 0;
    while o < |d|
      invariant o <= |d| && Dir.Tiled(d, o)
      invariant NoChildren(Dir.Live(d, 0)) <==> count == 0 && NoChildren(Dir.Live(d, o))
      decreases |d| - o
    {
      Dir.OnChain(d, o);
      if Dir.InodeAt(d, o) != 0 && Dir.NameAt(d, o) != DOT && Dir.NameAt(d, o) != DOT_DOT {
        count := count + 1;
      }
      ChildStep(d, o);
      o := Dir.Next(d, o);
    }
    Dir.EndOfChain(d, DOT);
    return count == 0;
  }

  lemma ChildStep(d: seq<byte>, o: nat)
    requires o < |d| && Dir.Tiled(d, o) && Dir.Fits(d, o) && Dir.Tiled(d, Dir.Next(d, o))
    requires Dir.Live(d, o) == Dir.EntryAt(d, o) + Dir.Live(d, Dir.Next(d, o))
    ensures Dir.Next(d, o) > o && Dir.Next(d, o) <= |d|
    ensures NoChildren(Dir.Live(d, o)) <==>
      (Dir.InodeAt(d, o) == 0 || Dir.NameAt(d, o) == DOT || Dir.NameAt(d, o) == DOT_DOT)
                                            && NoChildren(Dir.Live(d, Dir.Next(d, o)))
  {
    hide Dir.Live, Dir.Tiled;
    if Dir.InodeAt(d, o) != 0 {
      assert Dir.EntryAt(d, o)[0] in Dir.Live(d, o);
    }
    assert forall e :: e in Dir.Live(d, o) <==> e in Dir.EntryAt(d, o) || e in Dir.Live(d, Dir.Next(d, o));
  }

  /** i_links_count is 16 bits wide. */
  function LessOne(links: nat): nat { (links - 1) % 0x1_0000 }

  /** What dropping one link of file `t` does; the last link deletes it, and the parent of a deleted
      directory loses the link of its "..". */
  ghost predicate Detached(a: State, b: State, k: nat, t: nat) {
    && k < |a.inodes| == |b.inodes| && t < |a.inodes| && k != t && b.fs.geo == a.fs.geo
    && PerBlock(a.fs.geo.blockSize) > 0
    && (forall h :: 0 <= h < |a.inodes| && h != k && h != t ==> b.inodes[h] == a.inodes[h])
    && (forall h, i: nat {:trigger Blk(b, h, i)} :: 0 <= h < |a.inodes| && h != t ==> Blk(b, h, i) == Blk(a, h, i))
    && (forall s :: b.Get(k, s) == a.Get(k, s))
    && b.inodes[t].links == LessOne(a.inodes[t].links)
    && if LessOne(a.inodes[t].links) == 0
       then
         && b.used == Marks(a.used.blocks - DirectBlocks(a.inodes[t], 12), a.used.inodes - {t})
         && b.owner == a.owner - DirectBlocks(a.inodes[t], 12)
         && b.inodes[t].size == 0 && b.inodes[t].dtime == 1
         && (forall s :: b.Get(t, s) == if s.Direct? then 0 else a.Get(t, s))
         && b.inodes[k] == (if IsDir(a.inodes[t]) && a.inodes[k].links > 0
                            then a.inodes[k].(links := a.inodes[k].links - 1) else a.inodes[k])
       else
         && b.used == a.used && b.owner == a.owner && b.inodes[k] == a.inodes[k]
         && b.inodes[t] == a.inodes[t].(links := LessOne(a.inodes[t].links))
         && (forall i: nat :: Blk(b, t, i) == Blk(a, t, i))
  }

  /** The same in numbers. The file loses one link, from none to 65535; its inode and direct blocks are
      free if and only if that was the only one, and then the parent of a directory loses a link too.
      A directory as mkdir makes it has two, so removing it leaves its inode and its block in use. */
  ghost predicate OneLinkLess(a: State, b: State, k: nat, t: nat) {
    && k < |a.inodes| == |b.inodes| && t < |a.inodes| && var n := a.inodes[t].links;
    && b.inodes[t].links == (if n == 0 then 0xFFFF else n - 1)
    && b.used.inodes == (if n == 1 then a.used.inodes - {t} else a.used.inodes)
    && b.used.blocks == (if n == 1 then a.used.blocks - DirectBlocks(a.inodes[t], 12) else a.used.blocks)
    && b.inodes[k].links == a.inodes[k].links - (if n == 1 && IsDir(a.inodes[t]) && a.inodes[k].links > 0 then 1 else 0)
  }

  lemma LinkDropped(a: State, m: State, b: State, k: nat, t: nat)
    requires Detached(m, b, k, t) && |a.inodes| == |m.inodes| && a.inodes[t] == m.inodes[t] && a.used == m.used
    requires a.inodes[k].links == m.inodes[k].links && a.inodes[t].links < 0x1_0000
    ensures OneLinkLess(a, b, k, t)
  {
    assert LessOne(0) == 0xFFFF;
    hide Blk, State.Get, DirectBlocks;
  }

  /** S_ISDIR: the top four bits of the mode are 4, whatever the permissions. */
  lemma DirectoryMode(ino: Inode, kind: nat, permissions: nat)
    requires ino.mode == kind * 0x1000 + permissions && kind < 16 && permissions < 0x1000
    ensures IsDir(ino) <==> kind == 4
  {
    Arith.Split(0x1000, kind, permissions, ino.mode);
  }

  lemma DetachedKept(a: State, b: State, reserved: set<nat>, k: nat, t: nat)
    requires a.Valid(reserved) && t < |a.inodes| && k < |a.inodes| && k != t && LessOne(a.inodes[t].links) != 0
    requires b == a.(inodes := a.inodes[t := a.inodes[t].(links := LessOne(a.inodes[t].links))])
    ensures b.Valid(reserved) && Detached(a, b, k, t)
  {
    Restamped(a, reserved, t, b.inodes[t], b);
    hide State.Valid, State.Get, Blk, DirectBlocks;
  }

  lemma DetachedLast(a: State, c: State, d: State, b: State, reserved: set<nat>, k: nat, t: nat)
    requires a.Valid(reserved) && t < |a.inodes| && k < |a.inodes| && k != t && LessOne(a.inodes[t].links) == 0
    requires c == a.(inodes := a.inodes[t := a.inodes[t].(links := 0)])
    requires Released(c, d, t) && d.Valid(reserved)
    requires b == if IsDir(a.inodes[t]) && a.inodes[k].links > 0
                  then d.(inodes := d.inodes[k := d.inodes[k].(links := d.inodes[k].links - 1)]) else d
    ensures b.Valid(reserved) && Detached(a, b, k, t)
  {
    Restamped(a, reserved, t, c.inodes[t], c);
    OtherFilesTwice(a, c, d, t);
    assert DirectBlocks(c.inodes[t], 12) == DirectBlocks(a.inodes[t], 12);
    if b != d {
      Restamped(d, reserved, k, b.inodes[k], b);
    }
    LastContents(a, d, b, k, t);
    hide *;
  }

  lemma LastContents(a: State, d: State, b: State, k: nat, t: nat)
    requires OtherFiles(a, d, t) && t < |a.inodes| && k < |a.inodes| && k != t
    requires b == d ||
      (OtherFiles(d, b, k) && (forall s :: b.Get(k, s) == d.Get(k, s)) && forall i: nat :: Blk(b, k, i) == Blk(d, k, i))
    ensures |b.inodes| == |a.inodes| && b.fs.geo == a.fs.geo && PerBlock(a.fs.geo.blockSize) > 0
    ensures forall h :: 0 <= h < |a.inodes| && h != k && h != t ==> b.inodes[h] == a.inodes[h]
    ensures forall h, i: nat :: 0 <= h < |a.inodes| && h != t ==> Blk(b, h, i) == Blk(a, h, i)
    ensures forall s :: b.Get(k, s) == a.Get(k, s)
    ensures forall s :: b.Get(t, s) == d.Get(t, s)
  {
    forall h, i: nat | 0 <= h < |a.inodes| && h != t ensures Blk(b, h, i) == Blk(a, h, i) {
      assert Blk(d, h, i) == Blk(a, h, i);
    }
    forall s ensures b.Get(k, s) == a.Get(k, s) {
      assert d.Get(k, s) == a.Get(k, s);
    }
    hide State.Get, Blk;
  }

  /** The part of ext2_vfs_unlink after the directory entry is gone. */
  method DropLink(v: Volume, k: nat, t: u32, isDir: bool)
    requires v.Valid() && k < |v.inodes| == |v.table| && t < |v.inodes| && k != t && v.fs.geo.Valid()
    requires v.fs.geo.InRange(Inodes, t)
    requires isDir == IsDir(v.inodes[t])
    modifies v`fs, v`used, v`inodes, v`owner, v`table
    ensures v.Valid() && Detached(old(v.Now()), v.Now(), k, t) && |v.inodes| == |old(v.inodes)| == |v.table|
    ensures v.table[t] == v.inodes[t] && (v.inodes[k] == old(v.inodes[k]) || v.table[k] == v.inodes[k])
    ensures old(v.inodes)[t].links < 0x1_0000 ==> OneLinkLess(old(v.Now()), v.Now(), k, t)
  {
    hide State.Valid, Released, Detached, Geometry.InRange, OneLinkLess;
    ghost var a := v.Now();
    v.inodes := v.inodes[t := v.inodes[t].(links := LessOne(v.inodes[t].links))];
    ghost var c := v.Now();
    if v.inodes[t].links == 0 {
      Restamped(a, v.reserved, t, c.inodes[t], c);
      ReleaseInode(v, t);
      ghost var d := v.Now();
      ReleasedFacts(c, d, t, k);
      if isDir && v.inodes[k].links > 0 {
        v.inodes := v.inodes[k := v.inodes[k].(links := v.inodes[k].links - 1)];
        v.table := v.table[k := v.inodes[k]];
      }
      DetachedLast(a, c, d, v.Now(), v.reserved, k, t);
    } else {
      v.table := v.table[t := v.inodes[t]];
      DetachedKept(a, c, v.reserved, k, t);
    }
    if a.inodes[t].links < 0x1_0000 {
      LinkDropped(a, a, v.Now(), k, t);
    }
  }

  lemma ReleasedFacts(c: State, d: State, t: nat, k: nat)
    requires Released(c, d, t) && k < |c.inodes| && k != t
    ensures |d.inodes| == |c.inodes| && d.inodes[k] == c.inodes[k]
  {
  }

  /** The target `t` of an unlink is an inode of the volume, unopened elsewhere; a directory is readable. */
  ghost predicate Known(v: Volume, t: nat)
    reads v
  {
    && t < |v.inodes| == |v.table| && v.fs.geo.Valid() && v.fs.geo.InRange(Inodes, t) && v.table[t] == v.inodes[t]
    && (IsDir(v.inodes[t]) ==> Directory(v.Now(), t))
  }

  /** When ext2_vfs_unlink succeeds. */
  ghost predicate Removable(s: State, k: nat, name: Dir.Name)
    requires Directory(s, k)
  {
    var t := Dir.Lookup(Entries(s, k), name);
    && name != DOT && name != DOT_DOT && 0 < |name| < 0x100 && 0 < t < |s.inodes|
    && (IsDir(s.inodes[t]) ==> Directory(s, t) && NoChildren(Entries(s, t)))
  }

  lemma {:induction false} LookupNamed(es: seq<Dir.Entry>, name: Dir.Name)
    ensures Dir.Lookup(es, name) != 0 ==> exists e :: e in es && e.name == name
  {
    if es != [] {
      LookupNamed(es[1..], name);
      assert es[0] in es && forall e :: e in es[1..] ==> e in es;
    }
  }

  /** A removable entry never names the directory it is in. */
  lemma NotItself(s: State, k: nat, name: Dir.Name)
    requires Directory(s, k) && IsDir(s.inodes[k]) && Removable(s, k, name)
    ensures Dir.Lookup(Entries(s, k), name) != k
  {
    hide Dir.Live, Dir.Tiled, Dir.Lookup, FileBytes, Whole;
    LookupNamed(Entries(s, k), name);
  }

  lemma InodeSmall(geo: Geometry, n: nat)
    requires geo.Valid() && geo.InRange(Inodes, n)
    ensures 0 < n < 0x8000_0000
  {
    var g: nat, i: nat :| g < geo.numGroups && i < geo.Units(Inodes, g) && n == geo.Number(Inodes, g, i);
    Arith.Lex(geo.inodesPerGroup, g, i, geo.numGroups, 0);
    Arith.Lex(geo.inodesPerGroup, g, i, 0, 0);
  }

  /** ext2_vfs_unlink. The ghost results are the state between the two halves and the entries around the one removed. */
  method Unlink(v: Volume, k: nat, name: Dir.Name)
    returns (r: int, ghost m: State, ghost pre: seq<Dir.Entry>, ghost e: Dir.Entry, ghost post: seq<Dir.Entry>)
    requires v.Valid() && Directory(v.Now(), k) && IsDir(v.inodes[k]) && |v.table| == |v.inodes|
    requires Dir.Lookup(Entries(v.Now(), k), name) != 0 ==> Known(v, Dir.Lookup(Entries(v.Now(), k), name))
    modifies v`fs, v`used, v`inodes, v`owner, v`table
    ensures v.Valid() && |v.inodes| == |old(v.inodes)| == |v.table|
    ensures r == if old(Removable(v.Now(), k, name)) then 0 else -1
    ensures r == -1 ==> v.Now() == old(v.Now()) && v.table == old(v.table)
    ensures r == 0 ==> Dropped(old(v.Now()), m, k, name, pre, e, post) && Detached(m, v.Now(), k, e.inode)
    ensures r == 0 ==> e.inode == Dir.Lookup(Entries(old(v.Now()), k), name)
    ensures r == 0 && e.inode < |old(v.inodes)| && old(v.inodes)[e.inode].links < 0x1_0000 ==>
      OneLinkLess(old(v.Now()), v.Now(), k, e.inode)
  {
    hide State.Valid, Dir.Live, Dir.Tiled, Dir.Lookup, FileBytes, Whole, Geometry.InRange, Dropped, Detached,
      NoChildren, OneLinkLess;
    ghost var a := v.Now();
    if name == DOT || name == DOT_DOT {
      return -1, a, [], Dir.Entry([], 0, 0), [];
    }
    var t := FindNode(v, k, name);
    if t == 0 {
      return -1, a, [], Dir.Entry([], 0, 0), [];
    }
    var isDir := IsDir(v.table[t]);
    if isDir {
      var d := ReadAll(v, t);
      var empty := IsDirEmpty(d);
      if !empty {
        return -1, a, [], Dir.Entry([], 0, 0), [];
      }
    }
    InodeSmall(v.fs.geo, t);
    r, pre, e, post := RemoveDirEntry(v, k, name);
    m := v.Now();
    if r < 0 {
      return;
    }
    NotItself(a, k, name);
    DroppedFacts(a, m, k, name, pre, e, post);
    DropLink(v, k, t, isDir);
    r := 0;
    if a.inodes[t].links < 0x1_0000 {
      LinkDropped(a, m, v.Now(), k, t);
    }
  }

  lemma DroppedFacts(a: State, m: State, k: nat, name: Dir.Name, pre: seq<Dir.Entry>, e: Dir.Entry,
                     post: seq<Dir.Entry>)
    requires Dropped(a, m, k, name, pre, e, post)
    ensures k < |m.inodes| == |a.inodes| && m.fs.geo == a.fs.geo && m.used == a.used && m.owner == a.owner
    ensures forall h :: 0 <= h < |a.inodes| && h != k ==> m.inodes[h] == a.inodes[h]
    ensures m.inodes[k] == a.inodes[k].(sectors := m.inodes[k].sectors)
    ensures PerBlock(a.fs.geo.blockSize) > 0 && OthersKept(a, m, k)
    ensures Whole(m, k) && Dir.Removal(FileBytes(a, k), name, FileBytes(m, k), pre, e, post)
  {
    assert m.inodes[k].size == |FileBytes(m, k)| == |FileBytes(a, k)|;
    hide Dir.Live, Dir.Tiled, FileBytes, Blk, State.Get, Backed;
  }

  lemma FileKept(a: State, b: State, k: nat)
    requires Whole(a, k) && k < |b.inodes| && b.fs.geo == a.fs.geo && b.inodes[k].size == a.inodes[k].size
    requires (forall s :: b.Get(k, s) == a.Get(k, s)) && forall i: nat :: Blk(b, k, i) == Blk(a, k, i)
    ensures Whole(b, k) && FileBytes(b, k) == FileBytes(a, k)
  {
    forall i: nat ensures Where(b, k, i) == Where(a, k, i) {
      var s := SlotOf(a.fs.geo.blockSize, i);
      assert b.Get(k, s) == a.Get(k, s);
    }
    assert forall i :: 0 <= i < |FileBytes(b, k)| ==> FileBytes(b, k)[i] == ByteAt(a, k, i);
    hide Where, At, Blk;
  }

  /** ext2_vfs_unlink on a directory whose merge fits: exactly the first entry of that name is gone. */
  lemma UnlinkedEntries(a: State, m: State, b: State, k: nat, name: Dir.Name, pre: seq<Dir.Entry>, e: Dir.Entry,
                        post: seq<Dir.Entry>)
    requires Dropped(a, m, k, name, pre, e, post) && Detached(m, b, k, e.inode)
    requires FileBytes(a, k) != [] && (Dir.Matches(FileBytes(a, k), 0, name) || Dir.MergeFits(FileBytes(a, k), 0, name))
    ensures Directory(b, k) && Entries(a, k) == pre + [e] + post && Entries(b, k) == pre + post
  {
    DroppedFacts(a, m, k, name, pre, e, post);
    FileKept(m, b, k);
    hide Dir.Live, Dir.Tiled, FileBytes, Blk, State.Get, Backed, Whole, Rewritten;
  }

  // ----- create

  /** The inode ext2_vfs_create writes: a regular file, mode 0644, one link, no blocks. */
  const NEW_FILE := Inode(0x81A4, 0, 1, 0, 0, NO_POINTERS)

  /** Inode `n` was taken and initialised as an empty file. */
  ghost predicate Born(a: State, b: State, n: nat) {
    && n < |a.inodes| && OtherFiles(a, b, n) && b.inodes[n] == NEW_FILE && (forall s :: b.Get(n, s) == 0)
    && n !in a.used.inodes && b.used == a.used.Switched(Inodes, n, true) && b.owner == Disowned(a.owner, n)
    && b.fs.geo.Valid() && b.fs.geo.InRange(Inodes, n)
    && b.fs.sb.freeBlocks == a.fs.sb.freeBlocks
  }

  lemma BornFrom(a: State, m: State, b: State, reserved: set<nat>, n: nat)
    requires a.Valid(reserved) && MetaOnly(a, m, reserved) && n < |a.inodes| && n !in a.used.inodes
    requires m.used == a.used.Switched(Inodes, n, true) && m.fs.sb.freeBlocks == a.fs.sb.freeBlocks
    requires m.fs.geo.Valid() && m.fs.geo.InRange(Inodes, n)
    requires b == m.(inodes := m.inodes[n := NEW_FILE], owner := Disowned(m.owner, n))
    ensures b.Valid(reserved) && Born(a, b, n)
  {
    MetaKeeps(a, m, reserved, n);
    Emptied(m, reserved, n, NEW_FILE, b);
    OtherFilesTwice(a, m, b, n);
    hide OtherFiles, State.Valid, State.Get, Geometry.InRange, Geometry.Valid, Disowned, MetaOnly;
  }

  /** Every inode number of the volume has a structure. */
  ghost predicate Indexed(s: State) {
    s.fs.geo.Valid() && forall n :: s.fs.geo.InRange(Inodes, n) ==> 0 < n < |s.inodes|
  }

  /** Allocate an inode and write an empty file in it. */
  method NewInode(v: Volume) returns (n: int)
    requires v.Valid() && Indexed(v.Now()) && |v.table| == |v.inodes|
    modifies v`fs, v`used, v`inodes, v`owner, v`table
    ensures v.Valid() && |v.inodes| == |old(v.inodes)| == |v.table|
    ensures n == -1 || 0 < n < |v.inodes|
    ensures n == -1 <==> old(v.fs).sb.freeInodes == 0
    ensures n == -1 ==> v.Now() == old(v.Now()) && v.table == old(v.table)
    ensures n != -1 ==> Born(old(v.Now()), v.Now(), n) && v.table == old(v.table)[n := NEW_FILE]
    ensures n != -1 ==> !IsDir(v.inodes[n]) && v.inodes[n].mode == 8 * 0x1000 + 6 * 64 + 4 * 8 + 4
    ensures n != -1 ==> v.inodes[n].links == 1 && v.inodes[n].size == v.inodes[n].sectors == v.inodes[n].dtime == 0
    ensures n != -1 ==> forall i :: 0 <= i < 15 ==> v.inodes[n].ptr[i] == 0
  {
    hide State.Valid, Fs.Sound, Geometry.InRange, Born;
    ghost var a := v.Now();
    ValidIsSound(a, v.reserved);
    OwnersMarked(a, v.reserved);
    n := v.AllocUnit(Inodes, NoFault);
    if n < 0 {
      return;
    }
    ghost var m := v.Now();
    assert m.fs.sb.freeBlocks == a.fs.sb.freeBlocks;
    v.inodes := v.inodes[n := NEW_FILE];
    v.table := v.table[n := NEW_FILE];
    v.owner := Disowned(v.owner, n);
    BornFrom(a, m, v.Now(), v.reserved, n);
  }

  /** Another file's birth leaves directory `k` as it was. */
  lemma BornKeeps(a: State, b: State, n: nat, k: nat)
    requires Born(a, b, n) && Directory(a, k) && k in a.used.inodes
    ensures n != k && n < |b.inodes| && b.inodes[k] == a.inodes[k] && b.fs.geo == a.fs.geo && n in b.used.inodes
    ensures Directory(b, k) && FileBytes(b, k) == FileBytes(a, k)
    ensures forall name :: HasRoom(b, k, name) == HasRoom(a, k, name)
    ensures b.fs.geo.Valid() && b.fs.geo.InRange(Inodes, n)
  {
    WholeFacts(a, k);
    hide Dir.Tiled, Dir.Room, Whole, FileBytes, Geometry.InRange;
    FileKept(a, b, k);
  }

  /** Giving the inode back restores the marks and every free count. */
  lemma GivenBack(a: State, s: State, b: State, reserved: set<nat>, n: nat)
    requires a.Valid(reserved) && s.Valid(reserved) && n !in a.used.inodes
    requires s.used == a.used.Switched(Inodes, n, true) && s.fs.geo == a.fs.geo
    requires MetaOnly(s, b, reserved) && b.used == s.used.Switched(Inodes, n, false)
    ensures b.Valid(reserved) && b.used == a.used && b.fs.sb == a.fs.sb
  {
    hide Fs.Sound;
    MetaKeeps(s, b, reserved, n);
    assert b.used == a.used;
    SameMarksSameCounts(a.fs, b.fs, a.used, reserved);
    hide OtherFiles;
  }

  /** ext2_free_inode on an inode in use. */
  method ReturnInode(v: Volume, n: u32)
    requires v.Valid() && n in v.used.inodes && v.fs.geo.Valid() && v.fs.geo.InRange(Inodes, n)
    modifies v`fs, v`used
    ensures v.Valid() && MetaOnly(old(v.Now()), v.Now(), v.reserved) && v.used == old(v.used).Switched(Inodes, n, false)
  {
    hide State.Valid, Fs.Sound, Geometry.InRange, Fs.Counted, Fs.Shape, Counters.Plus;
    ghost var a := v.Now();
    ValidIsSound(a, v.reserved);
    OwnersMarked(a, v.reserved);
    var r := v.FreeUnit(Inodes, n, NoFault);
    MetaKeeps(a, v.Now(), v.reserved, n);
    hide OtherFiles;
  }

  /** ext2_vfs_create. The ghost results are the new inode number, the state after its
      initialisation, the entries around the new one, and the block that growing the directory leaks. */
  method Create(v: Volume, k: nat, name: Dir.Name)
    returns (r: int, ghost n: nat, ghost s: State, ghost pre: seq<Dir.Entry>, ghost post: seq<Dir.Entry>,
        ghost leak: nat)
    requires v.Valid() && Directory(v.Now(), k) && |v.table| == |v.inodes| && k in v.used.inodes && Indexed(v.Now())
    requires v.inodes[k].size + v.fs.geo.blockSize < 0x8000_0000
    modifies v`fs, v`used, v`inodes, v`owner, v`table
    ensures v.Valid() && |v.inodes| == |old(v.inodes)| == |v.table| && (r == 0 || r == -1)
    ensures var refused := old(Dir.Lookup(Entries(v.Now(), k), name) != 0 || v.fs.sb.freeInodes == 0);
      if refused then r == -1 && v.Now() == old(v.Now()) && v.table == old(v.table)
      else Born(old(v.Now()), s, n) && n < 0x1_0000_0000
    ensures old(Dir.Lookup(Entries(v.Now(), k), name) == 0 && v.fs.sb.freeInodes > 0) ==>
      var e := Dir.Entry(Truncated(name), n, 1);
      if old(HasRoom(v.Now(), k, name)) then
        r == 0 && Placed(s, v.Now(), k, pre, e, post) && v.table == old(v.table)[n := NEW_FILE][k := v.inodes[k]]
      else if old(v.fs).sb.freeBlocks == 0 then r == -1 && v.used == old(v.used) && v.fs.sb == old(v.fs).sb
      else if old(CanGrow(v.Now(), k)) || old(v.inodes)[k].size > 0 then
        r == 0 && Grown(s, v.Now(), k, e, leak, 0) && v.table == old(v.table)[n := NEW_FILE][k := v.inodes[k]]
      else
        && r == -1 && v.table == old(v.table)[n := NEW_FILE] && v.inodes[k].size == v.fs.geo.blockSize
        && leak !in old(v.used).blocks && leak !in v.owner && v.used == old(v.used).Switched(Blocks, leak, true)
  {
    hide State.Valid, Directory, Dir.Lookup, Geometry.InRange, Geometry.Valid, Born, Placed, Grown, HasRoom, MetaOnly,
      CanGrow;
    ghost var a := v.Now();
    DirectoryFacts(a, k);
    var found := FindNode(v, k, name);
    if found != 0 {
      return -1, 0, a, [], [], 0;
    }
    var i := NewInode(v);
    if i < 0 {
      return -1, 0, a, [], [], 0;
    }
    n, s := i, v.Now();
    BornKeeps(a, s, n, k);
    BornFacts(a, s, n);
    InodeSmall(s.fs.geo, n);
    BornGrows(a, s, n, k);
    r, pre, post, leak := AddDirEntry(v, k, i, name, 1);
    ghost var b := v.Now();
    AddReported(s, b, k, Dir.Entry(Truncated(name), n, 1), leak, r);
    if r != 0 {
      FailedAdd(s, b, k, n, Dir.Entry(Truncated(name), n, 1), leak);
      ReturnInode(v, i);
      MetaFacts(b, v.Now(), v.reserved);
      if a.fs.sb.freeBlocks == 0 {
        GivenBack(a, s, v.Now(), v.reserved, n);
      } else {
        assert v.used.inodes == a.used.inodes;
      }
    }
  }

  lemma BornGrows(a: State, s: State, n: nat, k: nat)
    requires Born(a, s, n) && k < |a.inodes| && k != n && PerBlock(a.fs.geo.blockSize) > 0
    ensures k < |s.inodes| && s.fs.geo == a.fs.geo && s.inodes[k] == a.inodes[k] && (CanGrow(s, k) <==> CanGrow(a, k))
  {
    SameGetsMissing(a, s, k, PathOf(a.fs.geo.blockSize, GrowthBlock(a.fs.geo.blockSize, a.inodes[k].size)));
    hide PathOf, Missing, State.Get, Blk;
  }

  lemma AddReported(s: State, b: State, k: nat, e: Dir.Entry, leak: nat, r: int)
    ensures Grown(s, b, k, e, leak, r) ==>
      k < |s.inodes| && PerBlock(s.fs.geo.blockSize) > 0 && r == if CanGrow(s, k) || s.inodes[k].size > 0 then 0 else -1
  {
    hide FileBytes, CanGrow, Dir.Tiled, Dir.Live;
  }

  lemma MetaFacts(a: State, b: State, reserved: set<nat>)
    requires MetaOnly(a, b, reserved)
    ensures b.inodes == a.inodes && b.owner == a.owner && b.fs.geo == a.fs.geo
  {
  }

  lemma DirectoryFacts(s: State, k: nat)
    requires Directory(s, k)
    ensures k < |s.inodes| && PerBlock(s.fs.geo.blockSize) > 0
  {
  }

  lemma BornFacts(a: State, s: State, n: nat)
    requires Born(a, s, n)
    ensures n !in a.used.inodes && s.used == a.used.Switched(Inodes, n, true) && s.fs.geo == a.fs.geo
    ensures s.fs.sb.freeBlocks == a.fs.sb.freeBlocks && |s.inodes| == |a.inodes|
  {
  }

  lemma FailedAdd(s: State, b: State, k: nat, n: nat, e: Dir.Entry, leak: nat)
    requires n in s.used.inodes && s.fs.geo.Valid() && s.fs.geo.InRange(Inodes, n)
    requires if s.fs.sb.freeBlocks == 0 then b == s else Grown(s, b, k, e, leak, -1)
    ensures n in b.used.inodes && b.fs.geo == s.fs.geo && b.used.inodes == s.used.inodes
    ensures s.fs.sb.freeBlocks > 0 ==>
      && leak !in s.used.blocks && leak !in b.owner && b.used.blocks == s.used.blocks + {leak}
      && k < |s.inodes| == |b.inodes| && b.inodes[k].size == s.inodes[k].size + s.fs.geo.blockSize
  {
    hide FileBytes, CanGrow, Dir.Tiled, Dir.Live, Geometry.InRange, State.Get, Blk;
  }

  /** ext2_vfs_create changes the directory's map by exactly the new binding. */
  lemma CreatedBinding(a: State, s: State, b: State, k: nat, n: nat, pre: seq<Dir.Entry>, e: Dir.Entry,
                       post: seq<Dir.Entry>)
    requires Directory(a, k) && k in a.used.inodes && Born(a, s, n) && Placed(s, b, k, pre, e, post)
    requires Dir.Unique(Entries(a, k)) && e.name !in Dir.Names(Entries(a, k))
    ensures Directory(b, k) && Dir.Unique(Entries(b, k))
    ensures Dir.Bindings(Entries(b, k)) == Dir.Bindings(Entries(a, k))[e.name := e.inode]
  {
    hide Directory, FileBytes, Dir.Live, Dir.Unique, Dir.Bindings, Dir.Names, Placed, Born;
    BornKeeps(a, s, n, k);
    PlacedFacts(s, b, k, pre, e, post);
    Dir.BindInserted(pre, e, post);
  }

  /** ext2_vfs_unlink changes it by exactly the binding removed. */
  lemma UnlinkedBinding(a: State, m: State, b: State, k: nat, name: Dir.Name, pre: seq<Dir.Entry>, e: Dir.Entry,
                        post: seq<Dir.Entry>)
    requires Dropped(a, m, k, name, pre, e, post) && Detached(m, b, k, e.inode) && Dir.Unique(Entries(a, k))
    requires FileBytes(a, k) != [] && (Dir.Matches(FileBytes(a, k), 0, name) || Dir.MergeFits(FileBytes(a, k), 0, name))
    ensures Directory(b, k) && Dir.Unique(Entries(b, k))
    ensures Dir.Bindings(Entries(b, k)) == Dir.Bindings(Entries(a, k)) - {name}
  {
    hide FileBytes, Dir.Live, Dir.Unique, Dir.Bindings, Dir.Names, Detached, Dir.MergeFits, Dir.Matches, Rewritten,
      Whole;
    UnlinkedEntries(a, m, b, k, name, pre, e, post);
    Dir.BindRemoved(pre, e, post);
  }

  // ----- conservation

  /** The one entry that carries `e.name` is found between the same neighbours. */
  lemma OnlyOne(pre: seq<Dir.Entry>, e: Dir.Entry, post: seq<Dir.Entry>,
                pre': seq<Dir.Entry>, e': Dir.Entry, post': seq<Dir.Entry>)
    requires pre + [e] + post == pre' + [e'] + post' && e'.name == e.name && e.name !in Dir.Names(pre + post)
    ensures pre' == pre && e' == e && post' == post
  {
    var all := pre + [e] + post;
    forall i | 0 <= i < |all| && i != |pre| ensures all[i].name != e.name {
      assert all[i] == (pre + post)[if i < |pre| then i else i - 1] && all[i] in pre + post;
    }
    assert all[|pre'|] == e' && all[|pre|] == e;
    assert pre' == all[..|pre|] == pre && post' == all[|pre| + 1..] == post;
  }

  /** What a file of at most twelve blocks gained in a write is what its deletion frees. */
  lemma WrittenBlocks(a: State, b: State, reserved: set<nat>, n: nat)
    requires a.Valid(reserved) && b.Valid(reserved) && Extended(a, b, n) && SameTops(a, b, n)
    requires forall s :: a.Get(n, s) == 0
    ensures b.used.blocks - DirectBlocks(b.inodes[n], 12) == a.used.blocks
  {
    hide Fs.Sound;
    assert b.inodes[n].ptr[12] == b.Get(n, Single) == 0 && b.inodes[n].ptr[13] == b.Get(n, Double) == 0;
    var gained := b.owner.Keys - a.owner.Keys;
    forall x | x in gained ensures x in DirectBlocks(b.inodes[n], 12) {
      assert b.Get(n, b.owner[x].slot) == x;
    }
    assert forall y :: y in a.owner ==> a.Get(a.owner[y].file, a.owner[y].slot) == y;
    forall x | x in DirectBlocks(b.inodes[n], 12) ensures x in gained {
      var i :| 0 <= i < 12 && b.inodes[n].ptr[i] == x;
      assert b.Get(n, Direct(i)) == x;
      assert a.Get(n, Direct(i)) == 0;
    }
    assert DirectBlocks(b.inodes[n], 12) == gained;
    assert forall x :: x in gained ==> x !in a.used.blocks;
    hide DirectBlocks, State.Get, State.Valid;
  }

  /** Placing the entry keeps every tree and every other file. */
  lemma PlacedFacts(s: State, b: State, k: nat, pre: seq<Dir.Entry>, e: Dir.Entry, post: seq<Dir.Entry>)
    requires Placed(s, b, k, pre, e, post)
    ensures k < |b.inodes| == |s.inodes| && b.fs.geo == s.fs.geo && b.used == s.used
    ensures forall h :: 0 <= h < |s.inodes| && h != k ==> b.inodes[h] == s.inodes[h]
    ensures forall h, t :: 0 <= h < |s.inodes| && h != k ==> b.Get(h, t) == s.Get(h, t)
    ensures b.inodes[k].mode == s.inodes[k].mode
    ensures Directory(b, k) && FileBytes(b, k) != [] && Entries(s, k) == pre + post && Entries(b, k) == pre + [e] + post
    ensures e.name !in Dir.Names(pre + post) ==> Dir.MergeFits(FileBytes(b, k), 0, e.name)
  {
    assert |Entries(b, k)| > 0;
    hide FileBytes, Whole, Blk, State.Get, Dir.Tiled;
  }

  /** A write to file `n` of at most twelve blocks, seen from directory `k`. */
  lemma WroteBeside(a: State, b: State, n: nat, k: nat, data: seq<byte>, w: nat)
    requires Wrote(a, b, n, 0, data, w) && Directory(a, k) && k != n && |data| <= 12 * a.fs.geo.blockSize
    ensures |b.inodes| == |a.inodes| && b.fs.geo == a.fs.geo && b.used.inodes == a.used.inodes
    ensures b.inodes[k] == a.inodes[k]
    ensures Directory(b, k) && FileBytes(b, k) == FileBytes(a, k)
    ensures Extended(a, b, n) && SameTops(a, b, n) && (w == 0 ==> b == a)
    ensures b.inodes[n].mode == a.inodes[n].mode && b.inodes[n].links == a.inodes[n].links
  {
    hide Dir.Tiled, FileBytes, Whole, Overlaid, Backed, CanReach, AllMapped, Where;
    WholeFacts(a, k);
    FileKept(a, b, k);
    if data != [] {
      LastDirect(a.fs.geo.blockSize, |data| - 1);
    }
  }

  lemma LastDirect(bs: nat, p: nat)
    requires bs > 0 && p < 12 * bs
    ensures BlockOf(bs, p) < 12
  {
    Arith.DivMod(p, bs);
    Arith.Lex(bs, p / bs, p % bs, 12, 0);
  }

  /** The whole run: `a` before, `s` after the birth of inode `n`, `b` with its entry, `c` with its
      data, `m` without the entry, `z` at the end. */
  lemma NothingLost(a: State, s: State, b: State, c: State, m: State, z: State, reserved: set<nat>, k: nat, n: nat,
                    pre: seq<Dir.Entry>, e: Dir.Entry, post: seq<Dir.Entry>,
                    pre': seq<Dir.Entry>, e': Dir.Entry, post': seq<Dir.Entry>)
    requires a.Valid(reserved) && b.Valid(reserved) && c.Valid(reserved) && z.Valid(reserved)
    requires Directory(a, k) && k in a.used.inodes && Born(a, s, n) && Placed(s, b, k, pre, e, post) && e.inode == n
    requires e.name !in Dir.Names(Entries(a, k))
    requires Extended(b, c, n) && SameTops(b, c, n) && Directory(c, k) && FileBytes(c, k) == FileBytes(b, k)
    requires c.inodes[n].links == b.inodes[n].links
    requires Dropped(c, m, k, e.name, pre', e', post') && Detached(m, z, k, e'.inode)
    ensures z.used == a.used && z.fs.sb == a.fs.sb && |z.fs.groups| == |a.fs.groups|
    ensures forall g :: 0 <= g < |a.fs.groups| ==> z.fs.groups[g].count == a.fs.groups[g].count
    ensures Directory(z, k) && Entries(z, k) == Entries(a, k)
  {
    hide *;
    BornKeeps(a, s, n, k);
    BornFacts(a, s, n);
    RunEntries(a, s, b, c, m, z, k, n, pre, e, post, pre', e', post');
    RunMarks(a, s, b, c, m, z, reserved, k, n, pre, e, post, pre', e', post');
    RunCounts(a, z, reserved);
  }

  lemma RunCounts(a: State, z: State, reserved: set<nat>)
    requires a.Valid(reserved) && z.Valid(reserved) && z.used == a.used && z.fs.geo == a.fs.geo
    ensures z.fs.sb == a.fs.sb && |z.fs.groups| == |a.fs.groups|
    ensures forall g :: 0 <= g < |a.fs.groups| ==> z.fs.groups[g].count == a.fs.groups[g].count
  {
    SameMarksSameCounts(a.fs, z.fs, a.used, reserved);
    hide Fs.Counted, Fs.Marked, Owned;
  }

  lemma RunEntries(a: State, s: State, b: State, c: State, m: State, z: State, k: nat, n: nat,
                   pre: seq<Dir.Entry>, e: Dir.Entry, post: seq<Dir.Entry>,
                   pre': seq<Dir.Entry>, e': Dir.Entry, post': seq<Dir.Entry>)
    requires Directory(a, k) && Directory(s, k) && FileBytes(s, k) == FileBytes(a, k) && Placed(s, b, k, pre, e, post)
    requires e.inode == n
    requires e.name !in Dir.Names(Entries(a, k))
    requires Directory(c, k) && FileBytes(c, k) == FileBytes(b, k)
    requires Dropped(c, m, k, e.name, pre', e', post') && Detached(m, z, k, e'.inode)
    ensures e' == e && Directory(z, k) && Entries(z, k) == Entries(a, k)
  {
    hide FileBytes, Whole, Dir.Tiled, Dir.Live, Dir.MergeFits, Dir.Matches, Dropped, Detached, Placed, Dir.Names;
    PlacedFacts(s, b, k, pre, e, post);
    UnlinkedEntries(c, m, z, k, e.name, pre', e', post');
    DroppedFacts(c, m, k, e.name, pre', e', post');
    assert Dir.Removal(FileBytes(c, k), e.name, FileBytes(m, k), pre', e', post');
    OnlyOne(pre, e, post, pre', e', post');
  }

  lemma RunMarks(a: State, s: State, b: State, c: State, m: State, z: State, reserved: set<nat>, k: nat, n: nat,
                 pre: seq<Dir.Entry>, e: Dir.Entry, post: seq<Dir.Entry>,
                 pre': seq<Dir.Entry>, e': Dir.Entry, post': seq<Dir.Entry>)
    requires b.Valid(reserved) && c.Valid(reserved) && n != k
    requires Born(a, s, n) && Placed(s, b, k, pre, e, post) && e.inode == n && e' == e
    requires Extended(b, c, n) && SameTops(b, c, n) && c.inodes[n].links == b.inodes[n].links
    requires Dropped(c, m, k, e.name, pre', e', post') && Detached(m, z, k, e'.inode)
    ensures z.used == a.used && z.fs.geo == a.fs.geo
  {
    hide State.Valid, Dropped, Placed, Dir.Removal, FileBytes, Whole;
    PlacedFacts(s, b, k, pre, e, post);
    DroppedFacts(c, m, k, e.name, pre', e', post');
    assert forall t :: b.Get(n, t) == 0;
    WrittenBlocks(b, c, reserved, n);
    assert LessOne(1) == 0;
    assert z.used.inodes == a.used.inodes && z.used.blocks == a.used.blocks;
    hide State.Get, Blk, DirectBlocks, OtherFiles;
  }

  /** Create a file, write to it, delete it: for data of at most twelve blocks the marks, the free
      counts and the directory are back where they were, even when the volume fills up on the way. */
  method CreateWriteUnlink(v: Volume, k: nat, name: Dir.Name, data: seq<byte>)
    requires v.Valid() && Directory(v.Now(), k) && IsDir(v.inodes[k]) && |v.table| == |v.inodes| && k in v.used.inodes
    requires Indexed(v.Now()) && v.inodes[k].size + v.fs.geo.blockSize < 0x8000_0000 && v.fs.sb.freeInodes > 0
    requires 0 < |name| < 0x100 && name != DOT && name != DOT_DOT && name !in Dir.Names(Entries(v.Now(), k))
    requires HasRoom(v.Now(), k, name) && |data| <= 12 * v.fs.geo.blockSize
    modifies v`fs, v`used, v`inodes, v`owner, v`table
    ensures v.Valid() && v.used == old(v.used) && v.fs.sb == old(v.fs).sb && |v.fs.groups| == |old(v.fs).groups|
    ensures forall g :: 0 <= g < |v.fs.groups| ==> v.fs.groups[g].count == old(v.fs).groups[g].count
    ensures Directory(v.Now(), k) && Entries(v.Now(), k) == old(Entries(v.Now(), k))
  {
    hide State.Valid, Directory, FileBytes, Dir.Lookup, Dir.Names, HasRoom, Indexed, Born, Placed, Grown, Wrote,
      Dropped, Detached,
      Known, Removable, Extended, SameTops, Geometry.Valid, Geometry.InRange, IsDir, Truncated;
    ghost var a := v.Now();
    SizesFit(a, v.reserved, k, name);
    ghost var n, s, pre, post, w, m, pre', e', post';
    var r, u;
    ghost var leak;
    r, n, s, pre, post, leak := Create(v, k, name);
    ghost var b, e := v.Now(), Dir.Entry(name, n, 1);
    Opened(a, s, b, k, name, n, pre, e, post);
    var node := FindNode(v, k, name);
    r, w := WriteInodeData(v, node, 0, data);
    ghost var c := v.Now();
    WroteBeside(b, c, node, k, data, w);
    Closable(v, b, k, name, n);
    u, m, pre', e', post' := Unlink(v, k, name);
    NothingLost(a, s, b, c, m, v.Now(), v.reserved, k, n, pre, e, post, pre', e', post');
  }

  lemma SizesFit(a: State, reserved: set<nat>, k: nat, name: Dir.Name)
    requires a.Valid(reserved) && Directory(a, k)
    ensures k < |a.inodes| && 12 * a.fs.geo.blockSize < 0x1_0000_0000
    ensures name !in Dir.Names(Entries(a, k)) ==> Dir.Lookup(Entries(a, k), name) == 0
    ensures |name| < 0x100 ==> Truncated(name) == name
  {
    LookupNamed(Entries(a, k), name);
    hide Dir.Live, Dir.Tiled, Fs.Counted, Fs.Marked;
  }

  lemma Opened(a: State, s: State, b: State, k: nat, name: Dir.Name, n: nat, pre: seq<Dir.Entry>, e: Dir.Entry,
               post: seq<Dir.Entry>)
    requires Directory(a, k) && k in a.used.inodes && name !in Dir.Names(Entries(a, k)) && Born(a, s, n)
    requires Placed(s, b, k, pre, e, post) && e.name == name && e.inode == n
    ensures Directory(b, k) && Dir.Lookup(Entries(b, k), name) == n && n != k
    ensures n < |b.inodes| == |a.inodes| && b.inodes[n] == NEW_FILE && b.fs.geo == a.fs.geo
    ensures IsDir(b.inodes[k]) == IsDir(a.inodes[k])
    ensures b.fs.geo.Valid() && b.fs.geo.InRange(Inodes, n)
  {
    hide Placed, FileBytes, Dir.Live, Dir.Tiled, Dir.MergeFits, Geometry.InRange, Geometry.Valid;
    BornKeeps(a, s, n, k);
    PlacedFacts(s, b, k, pre, e, post);
    assert Entries(b, k) == pre + ([e] + post);
    Dir.LookupConcat(pre, [e] + post, name);
    assert forall x :: x in pre ==> x in pre + post;
    assert ([e] + post)[0] == e;
  }

  lemma Closable(v: Volume, b: State, k: nat, name: Dir.Name, n: nat)
    requires Directory(b, k) && Dir.Lookup(Entries(b, k), name) == n && n < |b.inodes| && b.inodes[n] == NEW_FILE
    requires IsDir(b.inodes[k])
    requires b.fs.geo.Valid() && b.fs.geo.InRange(Inodes, n) && v.fs.geo == b.fs.geo
    requires Directory(v.Now(), k) && FileBytes(v.Now(), k) == FileBytes(b, k) && v.inodes[k] == b.inodes[k]
    requires n < |v.inodes| == |v.table|
    requires v.inodes[n].mode == b.inodes[n].mode && v.table[n] == v.inodes[n]
    requires name != DOT && name != DOT_DOT && 0 < |name| < 0x100
    ensures IsDir(v.inodes[k]) && Known(v, Dir.Lookup(Entries(v.Now(), k), name)) && Removable(v.Now(), k, name)
  {
    hide Directory, FileBytes, Dir.Tiled, Dir.Live, Dir.Lookup, Geometry.InRange, Geometry.Valid;
    InodeSmall(b.fs.geo, n);
  }
}
