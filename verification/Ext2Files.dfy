/** ext2_get_block: the walk from an inode to a logical block, with the allocations on the way. */
module Ext2Files {
  import opened Ext2Bytes
  import opened Ext2Tree
  import opened Ext2Volume
  import Arith

  // ----- taking one block and hanging it from a pointer

  /** What a successful ext2_alloc_block leaves behind. */
  ghost predicate Grabbed(a: State, b: State, reserved: set<nat>, n: u32) {
    && b.fs.geo == a.fs.geo && b.fs.Sound(b.used, reserved) && b.inodes == a.inodes && b.owner == a.owner
    && n !in a.used.blocks && b.used == a.used.Switched(Blocks, n, true)
    && a.fs.sb.freeBlocks > 0 && b.fs.sb == a.fs.sb.Plus(Blocks, -1)
    && n < |b.fs.disk| == |a.fs.disk|
    && forall i :: 0 <= i < |a.fs.disk| && i !in reserved ==> b.fs.disk[i] == a.fs.disk[i]
  }

  function Put(s: State, b: nat, data: Block): State
    requires b < |s.fs.disk|
  {
    s.(fs := s.fs.(disk := s.fs.disk[b := data]))
  }

  /** Zeroing the block just taken: the trees are as before and the block is fresh. */
  lemma Zeroed(a: State, b: State, reserved: set<nat>, n: u32, c: State)
    requires a.Valid(reserved) && Grabbed(a, b, reserved, n) && c == Put(b, n, Zeros(a.fs.geo.blockSize))
    ensures c.Valid(reserved) && Fresh(c.fs.disk, c.owner, n)
    ensures forall h, s :: 0 <= h < |a.inodes| ==> At(c.fs.disk, c.inodes[h], s) == At(a.fs.disk, a.inodes[h], s)
    ensures forall i :: i in a.owner ==> i < |a.fs.disk| && c.fs.disk[i] == b.fs.disk[i] == a.fs.disk[i] && i != n
    ensures n !in reserved && n in c.used.blocks
  {
    hide Fs.Sound;
    a.fs.SoundFacts(a.used, reserved);
    b.fs.SoundFacts(b.used, reserved);
    b.fs.WriteSound(n, Zeros(a.fs.geo.blockSize), b.used, reserved);
    PointersKept(a.fs.disk, c.fs.disk, a.inodes, a.owner);
  }

  /** File `k` gained `m` blocks at slots of `path`; nothing else but their marks and the counter changed. */
  ghost predicate Gained(a: State, b: State, k: nat, path: seq<Slot>, m: nat) {
    && b.fs.geo == a.fs.geo && m <= a.fs.sb.freeBlocks && b.fs.sb == a.fs.sb.(freeBlocks := a.fs.sb.freeBlocks - m)
    && k < |a.inodes| == |b.inodes| && b.inodes == a.inodes[k := a.inodes[k].(ptr := b.inodes[k].ptr)]
    && b.used == a.used.(blocks := a.used.blocks + (b.owner.Keys - a.owner.Keys))
    && (forall i :: i in b.owner && i !in a.owner ==> i !in a.used.blocks)
    && Grows(a.fs.disk, a.inodes, a.owner, b.fs.disk, b.inodes, b.owner, k, path)
  }

  lemma GainedNothing(a: State, k: nat, path: seq<Slot>)
    requires k < |a.inodes|
    ensures Gained(a, a, k, path, 0)
  {
  }

  lemma GainedTwice(a: State, b: State, c: State, k: nat, p: seq<Slot>, q: seq<Slot>, m: nat, n: nat)
    requires Gained(a, b, k, p, m) && Gained(b, c, k, q, n)
    ensures Gained(a, c, k, p + q, m + n)
  {
    GrowsWider(a.fs.disk, a.inodes, a.owner, b.fs.disk, b.inodes, b.owner, k, p, p + q);
    GrowsWider(b.fs.disk, b.inodes, b.owner, c.fs.disk, c.inodes, c.owner, k, q, p + q);
    GrowsTransitive(a.fs.disk, a.inodes, a.owner, b.fs.disk, b.inodes, b.owner, c.fs.disk, c.inodes, c.owner, k, p + q);
    assert forall i :: i in a.owner ==> i in b.owner;
    assert forall i :: i in b.owner ==> i in c.owner;
    assert c.owner.Keys - a.owner.Keys == (b.owner.Keys - a.owner.Keys) + (c.owner.Keys - b.owner.Keys);
    hide Grows;
  }

  lemma GainedOne(a: State, b: State, c: State, reserved: set<nat>, n: u32, k: nat, slot: Slot)
    requires Grabbed(a, b, reserved, n) && n !in a.owner
    requires c.fs.sb == b.fs.sb && c.fs.geo == b.fs.geo && c.used == b.used && c.owner == a.owner[n := Ref(k, slot)]
    requires k < |a.inodes| == |c.inodes| && c.inodes == a.inodes[k := a.inodes[k].(ptr := c.inodes[k].ptr)]
    requires Grows(a.fs.disk, a.inodes, a.owner, c.fs.disk, c.inodes, c.owner, k, [slot])
    ensures Gained(a, c, k, [slot], 1)
  {
    assert c.owner.Keys - a.owner.Keys == {n};
    hide Grows, Fs.Sound;
  }

  function Hung(s: State, n: u32, k: nat, slot: Slot): State {
    s.(owner := s.owner[n := Ref(k, slot)])
  }

  lemma GrownTop(a: State, b: State, reserved: set<nat>, n: u32, k: nat, i: nat, c: State)
    requires a.Valid(reserved) && Grabbed(a, b, reserved, n)
    requires k < |a.inodes| && i < 14 && a.inodes[k].ptr[i] == 0
    requires c == Hung(Put(b, n, Zeros(a.fs.geo.blockSize)).(inodes := WithPtr(a.inodes, k, i, n)), n, k, TopSlot(i))
    ensures c.Valid(reserved) && Gained(a, c, k, [TopSlot(i)], 1)
  {
    hide Fs.Sound, Grows, Gained;
    var z := Put(b, n, Zeros(a.fs.geo.blockSize));
    Zeroed(a, b, reserved, n, z);
    LinkTop(z.fs.disk, a.inodes, a.owner, k, i, n);
    GrowsByOne(a.fs.disk, a.inodes, a.owner, c.fs.disk, c.inodes, k, TopSlot(i), n);
    GainedOne(a, b, c, reserved, n, k, TopSlot(i));
  }

  /** Writing the pointer block before zeroing the new block, as the code does, ends in the same disk. */
  lemma Linked(a: State, b: State, reserved: set<nat>, n: u32, p: u32, data: Block, z: State)
    requires a.Valid(reserved) && Grabbed(a, b, reserved, n) && z == Put(b, n, Zeros(a.fs.geo.blockSize))
    requires p in a.owner && p < |b.fs.disk| && |data| == a.fs.geo.blockSize
    ensures Put(Put(b, p, data), n, Zeros(a.fs.geo.blockSize)) == Put(z, p, data)
    ensures p != n && z.fs.disk[p] == b.fs.disk[p] == a.fs.disk[p]
    ensures Put(z, p, data).fs.Sound(z.used, reserved)
  {
    hide Fs.Sound, Owned;
    Zeroed(a, b, reserved, n, z);
    z.fs.WriteSound(p, data, z.used, reserved);
  }

  lemma EntryLinked(a: State, b: State, reserved: set<nat>, n: u32, k: nat, parent: Slot, p: u32, e: nat, c: State)
    requires a.Valid(reserved) && Grabbed(a, b, reserved, n)
    requires k < |a.inodes| && Holds(parent) && p == a.Get(k, parent) != 0
    requires p < |a.fs.disk| && 4 * e + 4 <= |b.fs.disk[p]| == a.fs.geo.blockSize && Entry(a.fs.disk, p, e) == 0
    requires c ==
      Hung(Put(Put(b, p, PutLe32(b.fs.disk[p], 4 * e, n)), n, Zeros(a.fs.geo.blockSize)), n, k, Child(parent, e))
    ensures c.Valid(reserved) && n !in a.owner && n > 0 && IsZero(c.fs.disk[n])
    ensures forall h, s :: 0 <= h < |a.inodes| ==>
      At(c.fs.disk, c.inodes[h], s) == if h == k && s == Child(parent, e) then n else At(a.fs.disk, a.inodes[h], s)
    ensures forall i :: i in a.owner && i < |a.fs.disk| && a.owner[i].slot.Leaf() ==> c.fs.disk[i] == a.fs.disk[i]
  {
    hide Fs.Sound, At;
    var z := Put(b, n, Zeros(a.fs.geo.blockSize));
    var data := PutLe32(b.fs.disk[p], 4 * e, n);
    assert a.owner[p] == Ref(k, parent);
    Linked(a, b, reserved, n, p, data, z);
    Zeroed(a, b, reserved, n, z);
    LinkEntry(z.fs.disk, a.inodes, a.owner, k, parent, p, e, n);
    assert c.fs.disk == z.fs.disk[p := PutLe32(z.fs.disk[p], 4 * e, n)];
  }

  lemma GrownEntry(a: State, b: State, reserved: set<nat>, n: u32, k: nat, parent: Slot, p: u32, e: nat, c: State)
    requires a.Valid(reserved) && Grabbed(a, b, reserved, n)
    requires k < |a.inodes| && Holds(parent) && p == a.Get(k, parent) != 0
    requires p < |a.fs.disk| && 4 * e + 4 <= |b.fs.disk[p]| == a.fs.geo.blockSize && Entry(a.fs.disk, p, e) == 0
    requires c ==
      Hung(Put(Put(b, p, PutLe32(b.fs.disk[p], 4 * e, n)), n, Zeros(a.fs.geo.blockSize)), n, k, Child(parent, e))
    ensures c.Valid(reserved) && Gained(a, c, k, [Child(parent, e)], 1)
    ensures c.Get(k, Child(parent, e)) == n
  {
    hide Grows, Gained, Fs.Sound, State.Valid, At, Entry, PutLe32;
    EntryLinked(a, b, reserved, n, k, parent, p, e, c);
    ChildOfEntry(a, k, parent, e);
    GrowsByOne(a.fs.disk, a.inodes, a.owner, c.fs.disk, c.inodes, k, Child(parent, e), n);
    GainedOne(a, b, c, reserved, n, k, Child(parent, e));
  }

  method WriteBlock(v: Volume, b: nat, data: Block)
    requires b < |v.fs.disk|
    modifies v`fs
    ensures v.Now() == Put(old(v.Now()), b, data)
  {
    v.fs := v.fs.(disk := v.fs.disk[b := data]);
  }

  method AllocBlock(v: Volume) returns (r: int)
    requires v.Valid()
    modifies v`fs, v`used
    ensures r <= 0 ==> r == -1 && v.Now() == old(v.Now()) && v.fs.sb.freeBlocks == 0
    ensures r > 0 ==> r < 0x1_0000_0000 && Grabbed(old(v.Now()), v.Now(), v.reserved, r)
  {
    r := v.AllocUnit(Blocks, NoFault);
  }

  /** Allocate a block, hang it from i_block[i] and zero it. */
  method GrowTop(v: Volume, k: nat, i: nat) returns (n: u32)
    requires v.Valid() && k < |v.inodes| && i < 14 && v.inodes[k].ptr[i] == 0
    modifies v`fs, v`used, v`inodes, v`owner
    ensures v.Valid() && |v.inodes| == |old(v.inodes)|
    ensures n == 0 ==> v.Now() == old(v.Now()) && v.fs.sb.freeBlocks == 0
    ensures n != 0 ==> Gained(old(v.Now()), v.Now(), k, [TopSlot(i)], 1)
    ensures n == v.Now().Get(k, TopSlot(i))
  {
    hide State.Valid, Gained, Fs.Sound;
    var r := AllocBlock(v);
    if r <= 0 {
      return 0;
    }
    n := r;
    ghost var b := v.Now();
    v.inodes := WithPtr(v.inodes, k, i, n);
    WriteBlock(v, n, Zeros(v.fs.geo.blockSize));
    v.owner := v.owner[n := Ref(k, TopSlot(i))];
    GrownTop(old(v.Now()), b, v.reserved, n, k, i, v.Now());
  }

  /** Allocate a block, hang it from entry `e` of pointer block `p` and zero it. */
  method GrowEntry(v: Volume, k: nat, ghost parent: Slot, p: u32, e: nat) returns (n: u32)
    requires v.Valid() && k < |v.inodes| && Holds(parent) && p == v.Now().Get(k, parent) != 0
    requires p < |v.fs.disk| && e < PerBlock(v.fs.geo.blockSize) && Entry(v.fs.disk, p, e) == 0
    modifies v`fs, v`used, v`owner
    ensures v.Valid()
    ensures n == 0 ==> v.Now() == old(v.Now()) && v.fs.sb.freeBlocks == 0
    ensures n != 0 ==> Gained(old(v.Now()), v.Now(), k, [Child(parent, e)], 1)
    ensures n == v.Now().Get(k, Child(parent, e))
  {
    hide State.Valid, Gained, Fs.Sound, Entry, State.Get;
    ChildOfEntry(v.Now(), k, parent, e);
    var r := AllocBlock(v);
    if r <= 0 {
      return 0;
    }
    n := r;
    ghost var b := v.Now();
    BlockLength(v.fs, v.used, v.reserved, p, e);
    WriteBlock(v, p, PutLe32(v.fs.disk[p], 4 * e, n));
    WriteBlock(v, n, Zeros(v.fs.geo.blockSize));
    v.owner := v.owner[n := Ref(k, Child(parent, e))];
    GrownEntry(old(v.Now()), b, v.reserved, n, k, parent, p, e, v.Now());
  }

  /** An owned pointer block is on the disk and its entries are the words stored in it. */
  lemma PointerBlock(s: State, reserved: set<nat>, k: nat, slot: Slot, e: nat)
    requires s.Valid(reserved) && k < |s.inodes| && e < PerBlock(s.fs.geo.blockSize) && s.Get(k, slot) != 0
    ensures var p := s.Get(k, slot);
      p < |s.fs.disk| && 4 * e + 4 <= |s.fs.disk[p]| && Entry(s.fs.disk, p, e) == Le32(s.fs.disk[p], 4 * e)
  {
    hide Fs.Sound;
    BlockLength(s.fs, s.used, reserved, s.Get(k, slot), e);
  }

  lemma BlockLength(fs: Fs, used: Marks, reserved: set<nat>, p: nat, e: nat)
    requires fs.Sound(used, reserved) && p < |fs.disk| && e < PerBlock(fs.geo.blockSize)
    ensures |fs.disk[p]| == fs.geo.blockSize && 4 * e + 4 <= |fs.disk[p]|
  {
  }

  lemma ChildOfEntry(s: State, k: nat, parent: Slot, e: nat)
    requires k < |s.inodes| && Holds(parent)
    ensures s.Get(k, Child(parent, e)) == Entry(s.fs.disk, s.Get(k, parent), e)
  {
  }

  // ----- ext2_get_block

  /** The slots from the inode to logical block `idx`. */
  function PathOf(bs: nat, idx: nat): (path: seq<Slot>)
    requires PerBlock(bs) > 0
    ensures path != [] && path[|path| - 1] == SlotOf(bs, idx)
  {
    match SlotOf(bs, idx)
    case SingleEntry(i) => [Single] + [SingleEntry(i)]
    case DoubleLeaf(i, j) => [Double] + [DoubleEntry(i)] + [DoubleLeaf(i, j)]
    case leaf => [leaf]
  }

  /** How many pointers along `path` are still empty. */
  function Missing(s: State, k: nat, path: seq<Slot>): nat
    requires k < |s.inodes|
  {
    if path == [] then 0
    else Missing(s, k, path[..|path| - 1]) + if s.Get(k, path[|path| - 1]) == 0 then 1 else 0
  }

  function Min(a: nat, b: nat): nat { if a < b then a else b }

  /** Walking `path` of file `k` ended at block `r`. Allocation succeeds exactly when the volume has
      the missing blocks, takes no more than those, and a complete path is left untouched. */
  ghost predicate Walked(a: State, b: State, reserved: set<nat>, k: nat, path: seq<Slot>, r: u32, allocate: bool) {
    && k < |a.inodes| == |b.inodes| && path != [] && b.Valid(reserved) && r == b.Get(k, path[|path| - 1])
    && (allocate ==> (r != 0 <==> Missing(a, k, path) <= a.fs.sb.freeBlocks))
    && (!allocate || Min(Missing(a, k, path), a.fs.sb.freeBlocks) == 0 ==> b == a)
    && Gained(a, b, k, path, if allocate then Min(Missing(a, k, path), a.fs.sb.freeBlocks) else 0)
  }

  lemma MissingAppend(s: State, k: nat, path: seq<Slot>, slot: Slot)
    requires k < |s.inodes|
    ensures Missing(s, k, path + [slot]) == Missing(s, k, path) + if s.Get(k, slot) == 0 then 1 else 0
  {
    assert (path + [slot])[..|path|] == path;
  }

  lemma MissingOne(s: State, k: nat, slot: Slot)
    requires k < |s.inodes|
    ensures Missing(s, k, [slot]) == if s.Get(k, slot) == 0 then 1 else 0
  {
    MissingAppend(s, k, [], slot);
    assert [] + [slot] == [slot];
  }

  lemma OffPath(a: State, b: State, k: nat, path: seq<Slot>, m: nat, slot: Slot)
    requires Gained(a, b, k, path, m) && slot !in path
    ensures b.Get(k, slot) == a.Get(k, slot)
  {
  }

  lemma WalkOn(a: State, b: State, c: State, reserved: set<nat>, k: nat, path: seq<Slot>, p: u32, slot: Slot, r: u32,
               allocate: bool)
    requires Walked(a, b, reserved, k, path, p, allocate) && p != 0 && slot !in path
    requires Walked(b, c, reserved, k, [slot], r, allocate)
    ensures Walked(a, c, reserved, k, path + [slot], r, allocate)
  {
    hide State.Valid, State.Get, Missing, Grows;
    MissingAppend(a, k, path, slot);
    MissingOne(b, k, slot);
    var m := if allocate then Missing(a, k, path) else 0;
    var n := if allocate then Min(Missing(b, k, [slot]), b.fs.sb.freeBlocks) else 0;
    OffPath(a, b, k, path, m, slot);
    GainedTwice(a, b, c, k, path, [slot], m, n);
  }

  lemma WalkStop(a: State, b: State, reserved: set<nat>, k: nat, path: seq<Slot>, slot: Slot, allocate: bool)
    requires Walked(a, b, reserved, k, path, 0, allocate) && slot !in path && b.Get(k, slot) == 0
    ensures Walked(a, b, reserved, k, path + [slot], 0, allocate)
  {
    hide State.Valid, State.Get, Missing;
    MissingAppend(a, k, path, slot);
    OffPath(a, b, k, path, if allocate then Min(Missing(a, k, path), a.fs.sb.freeBlocks) else 0, slot);
    GrowsWider(a.fs.disk, a.inodes, a.owner, b.fs.disk, b.inodes, b.owner, k, path, path + [slot]);
    hide Grows;
  }

  lemma WalkedOne(a: State, b: State, reserved: set<nat>, k: nat, slot: Slot, r: u32, allocate: bool)
    requires k < |a.inodes| == |b.inodes| && b.Valid(reserved) && r == b.Get(k, slot)
    requires if a.Get(k, slot) != 0 || !allocate then b == a
             else if r == 0 then b == a && a.fs.sb.freeBlocks == 0
             else Gained(a, b, k, [slot], 1)
    ensures Walked(a, b, reserved, k, [slot], r, allocate)
  {
    hide State.Valid, State.Get, Missing;
    GainedNothing(a, k, [slot]);
    MissingOne(a, k, slot);
    hide Grows;
  }

  /** Pointer `i` of the inode, allocated if absent. */
  method EnsureTop(v: Volume, k: nat, i: nat, allocate: bool) returns (n: u32)
    requires v.Valid() && k < |v.inodes| && i < 14
    modifies v`fs, v`used, v`inodes, v`owner
    ensures Walked(old(v.Now()), v.Now(), v.reserved, k, [TopSlot(i)], n, allocate)
    ensures v.Valid() && |v.inodes| == |old(v.inodes)| && v.fs.geo == old(v.fs).geo && n == v.Now().Get(k, TopSlot(i))
  {
    hide State.Valid, Walked, Grows;
    n := v.inodes[k].ptr[i];
    if n == 0 && allocate {
      n := GrowTop(v, k, i);
    }
    WalkedOne(old(v.Now()), v.Now(), v.reserved, k, TopSlot(i), n, allocate);
  }

  /** Entry `e` of the pointer block `p` that hangs from `parent`, allocated if absent. */
  method EnsureEntry(v: Volume, k: nat, ghost parent: Slot, p: u32, e: nat, allocate: bool) returns (n: u32)
    requires v.Valid() && k < |v.inodes| && Holds(parent) && p == v.Now().Get(k, parent) != 0
    requires e < PerBlock(v.fs.geo.blockSize)
    modifies v`fs, v`used, v`owner
    ensures Walked(old(v.Now()), v.Now(), v.reserved, k, [Child(parent, e)], n, allocate)
    ensures v.Valid() && v.fs.geo == old(v.fs).geo && n == v.Now().Get(k, Child(parent, e))
  {
    hide State.Valid, Walked, Grows;
    ChildOfEntry(v.Now(), k, parent, e);
    PointerBlock(v.Now(), v.reserved, k, parent, e);
    n := Le32(v.fs.disk[p], 4 * e);
    if n == 0 && allocate {
      n := GrowEntry(v, k, parent, p, e);
    }
    WalkedOne(old(v.Now()), v.Now(), v.reserved, k, Child(parent, e), n, allocate);
  }

  /** Nothing hangs from a missing pointer block. */
  lemma Dangling(s: State, k: nat, parent: Slot, e: nat)
    requires k < |s.inodes| && Holds(parent) && s.Get(k, parent) == 0
    ensures s.Get(k, Child(parent, e)) == 0
  {
  }

  method GetSingle(v: Volume, k: nat, e: nat, allocate: bool) returns (b: u32)
    requires v.Valid() && k < |v.inodes| && e < PerBlock(v.fs.geo.blockSize)
    modifies v`fs, v`used, v`inodes, v`owner
    ensures Walked(old(v.Now()), v.Now(), v.reserved, k, [Single] + [SingleEntry(e)], b, allocate)
    ensures v.Valid() && v.fs.geo == old(v.fs).geo
  {
    hide Walked, State.Valid, State.Get;
    b := EnsureTop(v, k, 12, allocate);
    ghost var mid, p := v.Now(), b;
    if b == 0 {
      Dangling(mid, k, Single, e);
      WalkStop(old(v.Now()), mid, v.reserved, k, [Single], SingleEntry(e), allocate);
      return 0;
    }
    b := EnsureEntry(v, k, Single, b, e, allocate);
    WalkOn(old(v.Now()), mid, v.Now(), v.reserved, k, [Single], p, SingleEntry(e), b, allocate);
  }

  method GetDouble(v: Volume, k: nat, i: nat, j: nat, allocate: bool) returns (b: u32)
    requires v.Valid() && k < |v.inodes| && i < PerBlock(v.fs.geo.blockSize) && j < PerBlock(v.fs.geo.blockSize)
    modifies v`fs, v`used, v`inodes, v`owner
    ensures Walked(old(v.Now()), v.Now(), v.reserved, k, [Double] + [DoubleEntry(i)] + [DoubleLeaf(i, j)], b, allocate)
    ensures v.Valid() && v.fs.geo == old(v.fs).geo
  {
    hide Walked, State.Valid, State.Get;
    b := EnsureTop(v, k, 13, allocate);
    ghost var one, p := v.Now(), b;
    if b == 0 {
      Dangling(one, k, Double, i);
      Dangling(one, k, DoubleEntry(i), j);
      WalkStop(old(v.Now()), one, v.reserved, k, [Double], DoubleEntry(i), allocate);
      WalkStop(old(v.Now()), one, v.reserved, k, [Double] + [DoubleEntry(i)], DoubleLeaf(i, j), allocate);
      return 0;
    }
    b := EnsureEntry(v, k, Double, b, i, allocate);
    ghost var two, q := v.Now(), b;
    WalkOn(old(v.Now()), one, two, v.reserved, k, [Double], p, DoubleEntry(i), b, allocate);
    if b == 0 {
      Dangling(two, k, DoubleEntry(i), j);
      WalkStop(old(v.Now()), two, v.reserved, k, [Double] + [DoubleEntry(i)], DoubleLeaf(i, j), allocate);
      return 0;
    }
    b := EnsureEntry(v, k, DoubleEntry(i), b, j, allocate);
    WalkOn(old(v.Now()), two, v.Now(), v.reserved, k, [Double] + [DoubleEntry(i)], q, DoubleLeaf(i, j), b, allocate);
  }

  /** Entries in the first and second level that lead to a doubly indirect block. */
  function DoubleIndex(per: nat, idx: nat): (nat, nat)
    requires per > 0 && 12 + per <= idx
  {
    ((idx - 12 - per) / per, (idx - 12 - per) % per)
  }

  lemma PathCases(bs: nat, idx: nat)
    requires PerBlock(bs) > 0
    ensures idx < 12 ==> PathOf(bs, idx) == [TopSlot(idx)]
    ensures 12 <= idx < 12 + PerBlock(bs) ==> PathOf(bs, idx) == [Single] + [SingleEntry(idx - 12)]
    ensures 12 + PerBlock(bs) <= idx < Limit(bs) ==>
      var (i, j) := DoubleIndex(PerBlock(bs), idx);
      i < PerBlock(bs) && j < PerBlock(bs) && PathOf(bs, idx) == [Double] + [DoubleEntry(i)] + [DoubleLeaf(i, j)]
  {
    var per := PerBlock(bs);
    if 12 + per <= idx < Limit(bs) {
      var d := idx - 12 - per;
      Arith.DivMod(d, per);
      Arith.Lex(per, d / per, d % per, per, 0);
    }
  }

  /** `r` is where logical block `idx` of file `k` has its number, by position: a direct pointer, word
      `i` of the single-indirect block, or word `j` of the block that word `i` of the double-indirect
      block names. */
  ghost predicate Located(s: State, k: nat, idx: nat, r: u32) {
    && k < |s.inodes| && var p, ptr, disk := s.fs.geo.blockSize / 4, s.inodes[k].ptr, s.fs.disk;
    && (idx < 12 ==> r == ptr[idx])
    && (forall i: nat :: i < p && idx == 12 + i ==> r == Entry(disk, ptr[12], i))
    && (forall i: nat, j: nat :: i < p && j < p && idx == 12 + p + i * p + j ==>
          r == Entry(disk, Entry(disk, ptr[13], i), j))
  }

  lemma MappedLocated(s: State, k: nat, idx: nat)
    requires k < |s.inodes| && PerBlock(s.fs.geo.blockSize) > 0
    ensures Located(s, k, idx, Mapped(s.fs.disk, s.fs.geo.blockSize, s.inodes[k], idx))
  {
    var disk, bs, ino := s.fs.disk, s.fs.geo.blockSize, s.inodes[k];
    var p := bs / 4;
    Layout(disk, bs, ino, idx, 0);
    if idx >= 12 {
      Layout(disk, bs, ino, idx - 12, 0);
    }
    forall i: nat, j: nat | i < p && j < p && idx == 12 + p + i * p + j
      ensures Mapped(disk, bs, ino, idx) == Entry(disk, Entry(disk, ino.ptr[13], i), j)
    {
      Layout(disk, bs, ino, i, j);
    }
    hide Mapped, Entry;
  }

  lemma WalkedEnd(a: State, b: State, reserved: set<nat>, k: nat, idx: nat, r: u32, allocate: bool)
    requires PerBlock(b.fs.geo.blockSize) > 0 && idx < Limit(b.fs.geo.blockSize)
    requires Walked(a, b, reserved, k, PathOf(b.fs.geo.blockSize, idx), r, allocate)
    ensures Located(b, k, idx, r)
  {
    MappedLocated(b, k, idx);
    hide SlotOf, Located, State.Valid, Gained;
  }

  lemma BlockSizeOk(s: State, reserved: set<nat>)
    requires s.Valid(reserved)
    ensures s.fs.geo.blockSize >= 4 && PerBlock(s.fs.geo.blockSize) > 0
  {
  }

  /** The three cases of ext2_get_block. */
  method WalkTo(v: Volume, k: nat, idx: nat, allocate: bool) returns (b: u32)
    requires v.Valid() && k < |v.inodes|
    modifies v`fs, v`used, v`inodes, v`owner
    ensures v.Valid() && v.fs.geo == old(v.fs).geo && PerBlock(v.fs.geo.blockSize) > 0
    ensures idx >= Limit(v.fs.geo.blockSize) ==> b == 0 && v.Now() == old(v.Now())
    ensures idx < Limit(v.fs.geo.blockSize) ==>
      Walked(old(v.Now()), v.Now(), v.reserved, k, PathOf(v.fs.geo.blockSize, idx), b, allocate)
  {
    hide Walked, State.Valid, PathOf, SlotOf, PerBlock, DoubleIndex;
    BlockSizeOk(v.Now(), v.reserved);
    PathCases(v.fs.geo.blockSize, idx);
    var per := PerBlock(v.fs.geo.blockSize);
    if idx < 12 {
      b := EnsureTop(v, k, idx, allocate);
    } else if idx < 12 + per {
      b := GetSingle(v, k, idx - 12, allocate);
    } else if idx < 12 + per + per * per {
      var (i, j) := DoubleIndex(per, idx);
      b := GetDouble(v, k, i, j, allocate);
    } else {
      b := 0;
    }
  }

  /** ext2_get_block: the block that holds logical block `idx` of file `k`, or 0. */
  method GetBlock(v: Volume, k: nat, idx: nat, allocate: bool) returns (b: u32)
    requires v.Valid() && k < |v.inodes|
    modifies v`fs, v`used, v`inodes, v`owner
    ensures v.Valid() && v.fs.geo == old(v.fs).geo && PerBlock(v.fs.geo.blockSize) > 0
    ensures idx >= Limit(v.fs.geo.blockSize) ==> b == 0 && v.Now() == old(v.Now())
    ensures idx < Limit(v.fs.geo.blockSize) ==>
      Walked(old(v.Now()), v.Now(), v.reserved, k, PathOf(v.fs.geo.blockSize, idx), b, allocate)
    ensures idx < Limit(v.fs.geo.blockSize) ==> Located(v.Now(), k, idx, b)
  {
    hide Walked, State.Valid, PathOf, Located;
    b := WalkTo(v, k, idx, allocate);
    if idx < Limit(v.fs.geo.blockSize) {
      WalkedEnd(old(v.Now()), v.Now(), v.reserved, k, idx, b, allocate);
    }
  }
}
