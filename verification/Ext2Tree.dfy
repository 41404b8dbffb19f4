/** The block tree of an inode: twelve direct pointers, one single- and one double-indirect
    pointer block, and the ghost map that says which pointer each block hangs from. */
module Ext2Tree {
  import opened Ext2Bytes
  import Arith

  type Block = seq<byte>

  /** i_block[15]. */
  type Pointers = p: seq<u32> | |p| == 15 witness seq(15, _ => 0)

  datatype Inode = Inode(mode: nat, size: u32, links: nat, sectors: nat, dtime: nat, ptr: Pointers)

  /** A place that can hold a block number. */
  datatype Slot = Direct(i: nat) | Single | SingleEntry(i: nat) | Double | DoubleEntry(i: nat) | DoubleLeaf(i: nat,
      j: nat) {
    /** Leaf slots hold data blocks, the others pointer blocks. */
    predicate Leaf() { Direct? || SingleEntry? || DoubleLeaf? }
  }

  datatype Ref = Ref(file: nat, slot: Slot)

  /** Pointer `i` of pointer block `b`; nothing hangs from a missing block. */
  function Entry(disk: seq<Block>, b: nat, i: nat): u32 {
    if 0 < b < |disk| && 4 * i + 4 <= |disk[b]| then Le32(disk[b], 4 * i) else 0
  }

  function At(disk: seq<Block>, ino: Inode, s: Slot): u32 {
    match s
    case Direct(i) => if i < 12 then ino.ptr[i] else 0
    case Single => ino.ptr[12]
    case SingleEntry(i) => Entry(disk, ino.ptr[12], i)
    case Double => ino.ptr[13]
    case DoubleEntry(i) => Entry(disk, ino.ptr[13], i)
    case DoubleLeaf(i, j) => Entry(disk, Entry(disk, ino.ptr[13], i), j)
  }

  /** Every pointer of every file is the one the owner map names, and conversely: no two
      pointers, of one file or of two, ever hold the same block. */
  ghost predicate Owned(disk: seq<Block>, files: seq<Inode>, owner: map<nat, Ref>) {
    && (forall k, s :: 0 <= k < |files| && At(disk, files[k], s) != 0 ==>
          At(disk, files[k], s) in owner && owner[At(disk, files[k], s)] == Ref(k, s))
    && (forall b :: b in owner ==> 0 < b < |disk| && owner[b].file < |files|
                                   && At(disk, files[owner[b].file], owner[b].slot) == b)
  }

  /** Block writes that spare the owned pointer blocks change no pointer. */
  lemma PointersKept(disk: seq<Block>, disk': seq<Block>, files: seq<Inode>, owner: map<nat, Ref>)
    requires Owned(disk, files, owner) && |disk'| == |disk|
    requires forall b :: b in owner && !owner[b].slot.Leaf() ==> disk'[b] == disk[b]
    ensures forall k, s :: 0 <= k < |files| ==> At(disk', files[k], s) == At(disk, files[k], s)
    ensures Owned(disk', files, owner)
  {
    forall k, s | 0 <= k < |files| ensures At(disk', files[k], s) == At(disk, files[k], s) {
      assert At(disk, files[k], Single) != 0 ==> owner[At(disk, files[k], Single)] == Ref(k, Single);
      assert At(disk, files[k], Double) != 0 ==> owner[At(disk, files[k], Double)] == Ref(k, Double);
      if s.DoubleLeaf? {
        var e := DoubleEntry(s.i);
        assert At(disk, files[k], e) != 0 ==> owner[At(disk, files[k], e)] == Ref(k, e);
      }
    }
  }

  ghost predicate Fresh(disk: seq<Block>, owner: map<nat, Ref>, n: u32) {
    0 < n < |disk| && n !in owner && forall i :: 0 <= i < |disk[n]| ==> disk[n][i] == 0
  }

  lemma FreshIsEmpty(disk: seq<Block>, owner: map<nat, Ref>, n: u32, i: nat)
    requires Fresh(disk, owner, n)
    ensures Entry(disk, n, i) == 0
  {
  }

  function TopSlot(i: nat): Slot
    requires i < 14
  {
    if i < 12 then Direct(i) else if i == 12 then Single else Double
  }

  function WithPtr(files: seq<Inode>, k: nat, i: nat, n: u32): seq<Inode>
    requires k < |files| && i < 15
  {
    files[k := files[k].(ptr := files[k].ptr[i := n])]
  }

  /** Hanging a fresh zeroed block from the inode changes that one pointer. */
  lemma LinkTop(disk: seq<Block>, files: seq<Inode>, owner: map<nat, Ref>, k: nat, i: nat, n: u32)
    requires Owned(disk, files, owner) && Fresh(disk, owner, n)
    requires k < |files| && i < 14 && files[k].ptr[i] == 0
    ensures forall h, s :: 0 <= h < |files| ==>
      At(disk, WithPtr(files, k, i, n)[h], s) == if h == k && s == TopSlot(i) then n else At(disk, files[h], s)
    ensures Owned(disk, WithPtr(files, k, i, n), owner[n := Ref(k, TopSlot(i))])
  {
    var files', owner' := WithPtr(files, k, i, n), owner[n := Ref(k, TopSlot(i))];
    forall h, s | 0 <= h < |files|
      ensures At(disk, files'[h], s) == if h == k && s == TopSlot(i) then n else At(disk, files[h], s)
    {
      if h == k && (s.SingleEntry? || s.DoubleEntry? || s.DoubleLeaf?) {
        FreshIsEmpty(disk, owner, n, s.i);
      }
    }
  }

  predicate Holds(parent: Slot) { parent.Single? || parent.Double? || parent.DoubleEntry? }

  function Child(parent: Slot, e: nat): Slot
    requires Holds(parent)
  {
    match parent
    case Single => SingleEntry(e)
    case Double => DoubleEntry(e)
    case DoubleEntry(i) => DoubleLeaf(i, e)
  }

  /** Hanging a fresh zeroed block from entry `e` of an owned pointer block changes that one pointer. */
  lemma LinkEntry(disk: seq<Block>, files: seq<Inode>, owner: map<nat, Ref>, k: nat, parent: Slot, p: u32, e: nat,
                  n: u32)
    requires Owned(disk, files, owner) && Fresh(disk, owner, n)
    requires k < |files| && Holds(parent) && p == At(disk, files[k], parent) != 0
    requires p < |disk| && 4 * e + 4 <= |disk[p]| && Entry(disk, p, e) == 0
    ensures forall h, s :: 0 <= h < |files| ==>
      At(disk[p := PutLe32(disk[p], 4 * e, n)], files[h], s)
      == if h == k && s == Child(parent, e) then n else At(disk, files[h], s)
    ensures Owned(disk[p := PutLe32(disk[p], 4 * e, n)], files, owner[n := Ref(k, Child(parent, e))])
  {
    var disk' := disk[p := PutLe32(disk[p], 4 * e, n)];
    assert owner[p] == Ref(k, parent);
    forall h, s | 0 <= h < |files|
      ensures At(disk', files[h], s) == if h == k && s == Child(parent, e) then n else At(disk, files[h], s)
    {
      LinkEntryAt(disk, files, owner, k, parent, p, e, n, h, s);
    }
  }

  lemma EntryAfterPut(disk: seq<Block>, p: nat, e: nat, n: u32, b: nat, i: nat)
    requires 0 < p < |disk| && 4 * e + 4 <= |disk[p]|
    ensures Entry(disk[p := PutLe32(disk[p], 4 * e, n)], b, i) == if b == p && i == e then n else Entry(disk, b, i)
  {
  }

  lemma LinkEntryAt(disk: seq<Block>, files: seq<Inode>, owner: map<nat, Ref>, k: nat, parent: Slot, p: u32, e: nat,
                    n: u32,
                    h: nat, s: Slot)
    requires Owned(disk, files, owner) && Fresh(disk, owner, n)
    requires k < |files| && Holds(parent) && p == At(disk, files[k], parent) != 0
    requires p < |disk| && 4 * e + 4 <= |disk[p]| && Entry(disk, p, e) == 0 && h < |files|
    ensures At(disk[p := PutLe32(disk[p], 4 * e, n)], files[h], s)
            == if h == k && s == Child(parent, e) then n else At(disk, files[h], s)
  {
    var disk' := disk[p := PutLe32(disk[p], 4 * e, n)];
    assert owner[p] == Ref(k, parent);
    match s
    case Direct(_) =>
    case Single =>
    case Double =>
    case SingleEntry(i) =>
      assert At(disk, files[h], Single) == p ==> Ref(h, Single) == Ref(k, parent);
      EntryAfterPut(disk, p, e, n, files[h].ptr[12], i);
    case DoubleEntry(i) =>
      assert At(disk, files[h], Double) == p ==> Ref(h, Double) == Ref(k, parent);
      EntryAfterPut(disk, p, e, n, files[h].ptr[13], i);
    case DoubleLeaf(i, j) =>
      assert At(disk, files[h], Double) == p ==> Ref(h, Double) == Ref(k, parent);
      assert At(disk, files[h], DoubleEntry(i)) == p ==> Ref(h, DoubleEntry(i)) == Ref(k, parent);
      EntryAfterPut(disk, p, e, n, files[h].ptr[13], i);
      EntryAfterPut(disk, p, e, n, Entry(disk', files[h].ptr[13], i), j);
      FreshIsEmpty(disk, owner, n, j);
  }

  // ----- growing a file

  /** `disk'`, `files'`, `owner'` extend the trees of `disk`, `files`, `owner`: existing pointers
      and data stay, only file `k` gains blocks, only at slots in `path`, and new data blocks are zero. */
  ghost predicate Grows(disk: seq<Block>, files: seq<Inode>, owner: map<nat, Ref>,
                        disk': seq<Block>, files': seq<Inode>, owner': map<nat, Ref>, k: nat, path: seq<Slot>)
  {
    && |disk'| == |disk| && |files'| == |files|
    && (forall h, s {:trigger At(disk, files[h], s)} {:trigger At(disk', files'[h], s)} ::
          0 <= h < |files| && (At(disk, files[h], s) != 0 || h != k || s !in path) ==>
            At(disk', files'[h], s) == At(disk, files[h], s))
    && (forall b :: b in owner ==> b in owner' && owner'[b] == owner[b])
    && (forall b :: b in owner && b < |disk| && owner[b].slot.Leaf() ==> disk'[b] == disk[b])
    && (forall b :: b in owner' && b !in owner ==>
          && owner'[b].file == k && owner'[b].slot in path && 0 < b < |disk|
          && (owner'[b].slot.Leaf() ==> IsZero(disk'[b])))
  }

  predicate IsZero(b: Block) { forall i :: 0 <= i < |b| ==> b[i] == 0 }

  /** Linking one fresh zeroed block at `slot` is such a step. */
  lemma GrowsByOne(disk: seq<Block>, files: seq<Inode>, owner: map<nat, Ref>,
                   disk': seq<Block>, files': seq<Inode>, k: nat, slot: Slot, n: u32)
    requires |disk'| == |disk| && |files'| == |files| && 0 < n < |disk| && n !in owner && k < |files|
    requires forall h, s :: 0 <= h < |files| ==>
      At(disk', files'[h], s) == if h == k && s == slot then n else At(disk, files[h], s)
    requires At(disk, files[k], slot) == 0
    requires forall b :: b in owner && b < |disk| && owner[b].slot.Leaf() ==> disk'[b] == disk[b]
    requires slot.Leaf() ==> IsZero(disk'[n])
    ensures Grows(disk, files, owner, disk', files', owner[n := Ref(k, slot)], k, [slot])
  {
    hide At;
  }

  lemma GrowsWider(disk: seq<Block>, files: seq<Inode>, owner: map<nat, Ref>,
                   disk': seq<Block>, files': seq<Inode>, owner': map<nat, Ref>, k: nat, path: seq<Slot>,
                       wider: seq<Slot>)
    requires Grows(disk, files, owner, disk', files', owner', k, path) && forall s :: s in path ==> s in wider
    ensures Grows(disk, files, owner, disk', files', owner', k, wider)
  {
  }

  lemma GrowsTransitive(disk: seq<Block>, files: seq<Inode>, owner: map<nat, Ref>,
                        disk1: seq<Block>, files1: seq<Inode>, owner1: map<nat, Ref>,
                        disk2: seq<Block>, files2: seq<Inode>, owner2: map<nat, Ref>, k: nat, path: seq<Slot>)
    requires Grows(disk, files, owner, disk1, files1, owner1, k, path)
    requires Grows(disk1, files1, owner1, disk2, files2, owner2, k, path)
    ensures Grows(disk, files, owner, disk2, files2, owner2, k, path)
  {
    forall h, s | 0 <= h < |files| && (At(disk, files[h], s) != 0 || h != k || s !in path)
      ensures At(disk2, files2[h], s) == At(disk, files[h], s)
    {
      assert At(disk1, files1[h], s) == At(disk, files[h], s);
    }
  }

  // ----- the block map and the contents it gives each file

  /** Pointers per block. */
  function PerBlock(bs: nat): nat { bs / 4 }

  /** Number of blocks the map reaches: direct, single- and double-indirect. */
  function Limit(bs: nat): nat { 12 + PerBlock(bs) + PerBlock(bs) * PerBlock(bs) }

  function SlotOf(bs: nat, idx: nat): Slot
    requires PerBlock(bs) > 0
  {
    var p := PerBlock(bs);
    if idx < 12 then Direct(idx)
    else if idx < 12 + p then SingleEntry(idx - 12)
    else DoubleLeaf((idx - 12 - p) / p, (idx - 12 - p) % p)
  }

  lemma SlotOfInjective(bs: nat, i: nat, j: nat)
    requires PerBlock(bs) > 0 && SlotOf(bs, i) == SlotOf(bs, j)
    ensures i == j
  {
    var p := PerBlock(bs);
    if i >= 12 + p {
      Arith.DivMod(i - 12 - p, p);
      Arith.DivMod(j - 12 - p, p);
    }
  }

  /** The block that holds logical block `idx`, or 0: the map ext2_get_block walks. */
  function Mapped(disk: seq<Block>, bs: nat, ino: Inode, idx: nat): u32
    requires PerBlock(bs) > 0
  {
    if idx < Limit(bs) then At(disk, ino, SlotOf(bs, idx)) else 0
  }

  /** The layout of the map. Twelve direct pointers come first, then the words of the block under
      pointer 12, then row after row the words of the blocks under pointer 13, a row for each word there. */
  lemma Layout(disk: seq<Block>, bs: nat, ino: Inode, i: nat, j: nat)
    requires bs / 4 > 0
    ensures var p := bs / 4;
      && (i < 12 ==> Mapped(disk, bs, ino, i) == ino.ptr[i])
      && (i < p ==> Mapped(disk, bs, ino, 12 + i) == Entry(disk, ino.ptr[12], i))
      && (i < p && j < p ==> Mapped(disk, bs, ino, 12 + p + i * p + j) == Entry(disk, Entry(disk, ino.ptr[13], i), j))
      && Mapped(disk, bs, ino, 12 + p + p * p + i) == 0
  {
    hide Mapped, Entry;
    var p := bs / 4;
    assert i * p >= 0;
    MapNear(disk, bs, ino, i);
    if i < p && j < p {
      MapDouble(disk, bs, ino, 12 + p + i * p + j, i, j);
    }
  }

  lemma MapNear(disk: seq<Block>, bs: nat, ino: Inode, i: nat)
    requires PerBlock(bs) > 0
    ensures i < 12 ==> Mapped(disk, bs, ino, i) == ino.ptr[i]
    ensures i < PerBlock(bs) ==> Mapped(disk, bs, ino, 12 + i) == Entry(disk, ino.ptr[12], i)
    ensures Mapped(disk, bs, ino, Limit(bs) + i) == 0
  {
    hide Entry;
    assert PerBlock(bs) * PerBlock(bs) >= 0;
  }

  lemma MapDouble(disk: seq<Block>, bs: nat, ino: Inode, idx: nat, i: nat, j: nat)
    requires i < PerBlock(bs) && j < PerBlock(bs) && idx == 12 + PerBlock(bs) + i * PerBlock(bs) + j
    ensures Mapped(disk, bs, ino, idx) == Entry(disk, Entry(disk, ino.ptr[13], i), j)
  {
    DoubleSlot(bs, i, j);
    hide SlotOf, Limit, Entry;
  }

  lemma DoubleSlot(bs: nat, i: nat, j: nat)
    requires i < PerBlock(bs) && j < PerBlock(bs)
    ensures var p := PerBlock(bs); var idx := 12 + p + i * p + j;
      12 + p <= idx < Limit(bs) && SlotOf(bs, idx) == DoubleLeaf(i, j)
  {
    var p := PerBlock(bs);
    assert i * p >= 0;
    Arith.Split(p, i, j, i * p + j);
    Arith.Lex(p, i, j, p, 0);
  }

  /** A word of a pointer block is four of its bytes, the low one first. */
  lemma EntryBytes(disk: seq<Block>, b: nat, i: nat)
    requires 0 < b < |disk| && 4 * i + 4 <= |disk[b]|
    ensures var d, o := disk[b], 4 * i;
      Entry(disk, b, i) as int ==
        d[o] as int + 0x100 * (d[o + 1] as int) + 0x1_0000 * (d[o + 2] as int) + 0x100_0000 * (d[o + 3] as int)
  {
  }

  /** The bytes of logical block `idx`; a hole reads as zeros. */
  function Content(disk: seq<Block>, bs: nat, ino: Inode, idx: nat): Block
    requires PerBlock(bs) > 0
  {
    var b := Mapped(disk, bs, ino, idx);
    if 0 < b < |disk| then disk[b] else Zeros(bs)
  }

  /** Growing changes no byte of any file. */
  lemma GrowsContent(disk: seq<Block>, files: seq<Inode>, owner: map<nat, Ref>,
                     disk': seq<Block>, files': seq<Inode>, owner': map<nat, Ref>, k: nat, path: seq<Slot>, bs: nat)
    requires PerBlock(bs) > 0 && forall b :: 0 <= b < |disk'| ==> |disk'[b]| == bs
    requires Owned(disk, files, owner) && Owned(disk', files', owner')
    requires Grows(disk, files, owner, disk', files', owner', k, path)
    ensures forall h, idx: nat :: 0 <= h < |files| ==>
      Content(disk', bs, files'[h], idx) == Content(disk, bs, files[h], idx)
  {
    forall h, idx: nat | 0 <= h < |files|
      ensures Content(disk', bs, files'[h], idx) == Content(disk, bs, files[h], idx)
    {
      if idx < Limit(bs) {
        var s := SlotOf(bs, idx);
        var b := At(disk', files'[h], s);
        if At(disk, files[h], s) == 0 && b != 0 {
          assert owner'[b] == Ref(h, s);
          assert b !in owner;
          assert disk'[b] == Zeros(bs);
        }
      }
    }
  }

  /** Overwriting the data block of (k, idx) changes that logical block and no other, in any file. */
  lemma WriteContent(disk: seq<Block>, files: seq<Inode>, owner: map<nat, Ref>, bs: nat, k: nat, idx: nat, data: Block)
    requires PerBlock(bs) > 0 && Owned(disk, files, owner) && k < |files|
    requires Mapped(disk, bs, files[k], idx) != 0
    ensures Mapped(disk, bs, files[k], idx) < |disk|
    ensures
      var disk' := disk[Mapped(disk, bs, files[k], idx) := data];
      && Owned(disk', files, owner)
      && (forall h, s :: 0 <= h < |files| ==> At(disk', files[h], s) == At(disk, files[h], s))
      && (forall h, i: nat :: 0 <= h < |files| ==>
            Content(disk', bs, files[h], i) == if h == k && i == idx then data else Content(disk, bs, files[h], i))
  {
    var b := Mapped(disk, bs, files[k], idx);
    var s := SlotOf(bs, idx);
    assert owner[b] == Ref(k, s) && s.Leaf();
    var disk' := disk[b := data];
    PointersKept(disk, disk', files, owner);
    forall h, i: nat | 0 <= h < |files|
      ensures Content(disk', bs, files[h], i) == if h == k && i == idx then data else Content(disk, bs, files[h], i)
    {
      if i < Limit(bs) && At(disk, files[h], SlotOf(bs, i)) == b {
        assert owner[b] == Ref(h, SlotOf(bs, i));
        SlotOfInjective(bs, i, idx);
      }
    }
  }
}
