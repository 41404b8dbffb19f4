/** Directory contents: a chain of variable-length records that tiles the file
    (Poirier, "The Second Extended File System", section "Linked List Directory"). */
module Ext2Dir {
  import opened Basics
  import opened Ext2Bytes

  type Name = seq<byte>

  /** A live directory entry. */
  datatype Entry = Entry(name: Name, inode: u32, kind: byte)

  // ----- record layout

  /** ext2_dir_entry_size: header and name, rounded up to four bytes. */
  function EntrySize(nameLen: nat): (n: nat)
    ensures 8 + nameLen <= n <= nameLen + 11 && n % 4 == 0
  {
    (8 + nameLen + 3) / 4 * 4
  }

  function InodeAt(d: seq<byte>, o: nat): u32 requires o + 8 <= |d| { Le32(d, o) }
  function RecLen(d: seq<byte>, o: nat): u16 requires o + 8 <= |d| { Le16(d, o + 4) }
  function NameLen(d: seq<byte>, o: nat): byte requires o + 8 <= |d| { d[o + 6] }

  /** A well-formed record starts at `o`: it holds its own name and ends inside the directory. */
  predicate Fits(d: seq<byte>, o: nat) {
    o + 8 <= |d| && EntrySize(NameLen(d, o)) <= RecLen(d, o) <= |d| - o
  }

  function NameAt(d: seq<byte>, o: nat): Name
    requires Fits(d, o)
  {
    d[o + 8..o + 8 + NameLen(d, o)]
  }

  function Next(d: seq<byte>, o: nat): (n: nat)
    requires Fits(d, o)
    ensures o < n <= |d|
  {
    o + RecLen(d, o)
  }

  /** The entry of a record, if it is live. */
  function EntryAt(d: seq<byte>, o: nat): (es: seq<Entry>)
    requires Fits(d, o)
    ensures forall e :: e in es ==> e.inode != 0
  {
    if InodeAt(d, o) == 0 then [] else [Entry(NameAt(d, o), InodeAt(d, o), d[o + 7])]
  }

  // ----- the chain and the entries it holds

  /** Records tile the directory exactly from `o` to its end. */
  ghost predicate Tiled(d: seq<byte>, o: nat)
    decreases |d| - o
  {
    o == |d| || (o < |d| && Fits(d, o) && Tiled(d, Next(d, o)))
  }

  /** The live entries from `o` on, in order. */
  ghost function Live(d: seq<byte>, o: nat): (es: seq<Entry>)
    requires Tiled(d, o)
    ensures forall e :: e in es ==> e.inode != 0
    decreases |d| - o
  {
    if o == |d| then [] else EntryAt(d, o) + Live(d, Next(d, o))
  }

  /** Records tile the directory exactly from `o` to `q`. */
  ghost predicate Reaches(d: seq<byte>, o: nat, q: nat)
    decreases q - o
  {
    o == q || (o < q && Fits(d, o) && Next(d, o) <= q && Reaches(d, Next(d, o), q))
  }

  ghost function LiveTo(d: seq<byte>, o: nat, q: nat): seq<Entry>
    requires Reaches(d, o, q)
    decreases q - o
  {
    if o == q then [] else EntryAt(d, o) + LiveTo(d, Next(d, o), q)
  }

  lemma {:induction false} ReachesOn(d: seq<byte>, o: nat, q: nat)
    requires Reaches(d, o, q) && Fits(d, q)
    ensures Reaches(d, o, Next(d, q)) && LiveTo(d, o, Next(d, q)) == LiveTo(d, o, q) + EntryAt(d, q)
    decreases q - o
  {
    if o < q {
      ReachesOn(d, Next(d, o), q);
    }
  }

  lemma {:induction false} Split(d: seq<byte>, o: nat, q: nat)
    requires Reaches(d, o, q) && Tiled(d, q)
    ensures Tiled(d, o) && Live(d, o) == LiveTo(d, o, q) + Live(d, q)
    decreases q - o
  {
    if o < q {
      hide EntryAt, RecLen, Fits;
      var n := Next(d, o);
      Split(d, n, q);
      assert Tiled(d, o);
      calc {
        Live(d, o);
        EntryAt(d, o) + Live(d, n);
        EntryAt(d, o) + (LiveTo(d, n, q) + Live(d, q));
        (EntryAt(d, o) + LiveTo(d, n, q)) + Live(d, q);
        LiveTo(d, o, q) + Live(d, q);
      }
    }
  }

  lemma {:induction false} WholeChain(d: seq<byte>, o: nat)
    requires Tiled(d, o)
    ensures o <= |d| && Reaches(d, o, |d|) && LiveTo(d, o, |d|) == Live(d, o)
    decreases |d| - o
  {
    if o < |d| {
      WholeChain(d, Next(d, o));
    }
  }

  lemma SameRecord(d: seq<byte>, d': seq<byte>, o: nat)
    requires Fits(d, o) && Next(d, o) <= |d'| && d[o..Next(d, o)] == d'[o..Next(d, o)]
    ensures Fits(d', o) && Next(d', o) == Next(d, o) && EntryAt(d', o) == EntryAt(d, o)
  {
    var n := Next(d, o);
    assert forall i :: o <= i < n ==> d[i] == d[o..n][i - o] == d'[i];
    assert NameAt(d', o) == NameAt(d, o);
  }

  /** A stretch of the chain depends only on its own bytes. */
  lemma {:induction false} SameStretch(d: seq<byte>, d': seq<byte>, o: nat, q: nat)
    requires Reaches(d, o, q) && q <= |d| && q <= |d'| && d[o..q] == d'[o..q]
    ensures Reaches(d', o, q) && LiveTo(d', o, q) == LiveTo(d, o, q)
    decreases q - o
  {
    if o < q {
      var n := Next(d, o);
      assert d[o..n] == d[o..q][..n - o] && d'[o..n] == d'[o..q][..n - o];
      assert d[n..q] == d[o..q][n - o..] && d'[n..q] == d'[o..q][n - o..];
      SameRecord(d, d', o);
      SameStretch(d, d', n, q);
    }
  }

  lemma SameTail(d: seq<byte>, d': seq<byte>, q: nat)
    requires Tiled(d, q) && q <= |d| == |d'| && d[q..] == d'[q..]
    ensures Tiled(d', q) && Live(d', q) == Live(d, q)
  {
    WholeChain(d, q);
    assert d[q..|d|] == d[q..] && d'[q..|d|] == d'[q..];
    SameStretch(d, d', q, |d|);
    Split(d', q, |d|);
  }

  // ----- editing the chain

  /** Header and name bytes at `o`. */
  ghost predicate Record(d: seq<byte>, o: nat, ino: u32, len: u16, name: Name, kind: byte) {
    && o + 8 + |name| <= |d| && InodeAt(d, o) == ino && RecLen(d, o) == len && NameLen(d, o) == |name|
    && d[o + 7] == kind
    && forall j :: 0 <= j < |name| ==> d[o + 8 + j] == name[j]
  }

  lemma RecordFits(d: seq<byte>, o: nat, ino: u32, len: u16, name: Name, kind: byte)
    requires Record(d, o, ino, len, name, kind) && EntrySize(|name|) <= len <= |d| - o
    ensures Fits(d, o) && Next(d, o) == o + len && EntryAt(d, o) == if ino == 0 then [] else [Entry(name, ino, kind)]
  {
    assert NameAt(d, o) == name;
  }

  /** The bytes of a record: the inode number in four and the length in two, low bytes first, the length
      of the name, the file type, and the name, padded to the length. */
  lemma RecordBytes(i0: byte, i1: byte, i2: byte, i3: byte, l0: byte, l1: byte, kind: byte, name: Name, pad: seq<byte>)
    requires |name| < 0x100 && (8 + |name| + |pad|) % 4 == 0 && 8 + |name| + |pad| == l0 + 0x100 * l1
    ensures var d := [i0, i1, i2, i3, l0, l1, |name|, kind] + name + pad;
      var ino: u32 := i0 + 0x100 * i1 + 0x1_0000 * i2 + 0x100_0000 * i3;
      Tiled(d, 0) && Live(d, 0) == if ino == 0 then [] else [Entry(name, ino, kind)]
  {
    var header: seq<byte> := [i0, i1, i2, i3, l0, l1, |name|, kind];
    var d := header + name + pad;
    assert forall j :: 0 <= j < 8 ==> d[j] == header[j];
    assert forall j :: 0 <= j < |name| ==> d[8 + j] == name[j];
    RecordFits(d, 0, Le32(d, 0), Le16(d, 4), name, kind);
    assert Tiled(d, |d|) && Live(d, |d|) == [];
  }

  lemma FitsRecord(d: seq<byte>, o: nat)
    requires Fits(d, o)
    ensures Record(d, o, InodeAt(d, o), RecLen(d, o), NameAt(d, o), d[o + 7])
    ensures EntryAt(d, o) == if InodeAt(d, o) == 0 then [] else [Entry(NameAt(d, o), InodeAt(d, o), d[o + 7])]
  {
  }

  lemma Front(d: seq<byte>, o: nat)
    requires Fits(d, o) && Tiled(d, Next(d, o))
    ensures Tiled(d, o) && Live(d, o) == EntryAt(d, o) + Live(d, Next(d, o))
  {
  }

  /** One record in front of a tiled tail, behind a tiled front. */
  lemma Joined(d: seq<byte>, o: nat)
    requires Reaches(d, 0, o) && Fits(d, o) && Tiled(d, Next(d, o))
    ensures Tiled(d, 0) && Live(d, 0) == LiveTo(d, 0, o) + EntryAt(d, o) + Live(d, Next(d, o))
  {
    ReachesOn(d, 0, o);
    Split(d, 0, Next(d, o));
  }

  /** Fill in a record header and name at `o`. */
  function PutEntry(d: seq<byte>, o: nat, ino: u32, recLen: u16, name: Name, kind: byte): (r: seq<byte>)
    requires o + 8 + |name| <= |d| && |name| < 0x100
    ensures |r| == |d| && Record(r, o, ino, recLen, name, kind)
    ensures forall i :: 0 <= i < |d| && !(o <= i < o + 8 + |name|) ==> r[i] == d[i]
  {
    var h := PutLe16(PutLe32(d, o, ino), o + 4, recLen)[o + 6 := |name|][o + 7 := kind];
    var r := h[..o + 8] + name + h[o + 8 + |name|..];
    assert Le32(r, o) == Le32(h, o) == ino && Le16(r, o + 4) == Le16(h, o + 4) == recLen;
    r
  }

  /** The record at `o` cut down to its own size, with a new record in the space freed. */
  function InsertAt(d: seq<byte>, o: nat, ino: u32, name: Name, kind: byte): seq<byte>
    requires Fits(d, o) && |name| < 0x100 && RecLen(d, o) - EntrySize(NameLen(d, o)) >= EntrySize(|name|)
  {
    var actual := EntrySize(NameLen(d, o));
    PutEntry(PutLe16(d, o + 4, actual), o + actual, ino, RecLen(d, o) - actual, name, kind)
  }

  lemma InsertedFrame(d: seq<byte>, o: nat, ino: u32, name: Name, kind: byte, d': seq<byte>)
    requires Fits(d, o) && |name| < 0x100 && RecLen(d, o) - EntrySize(NameLen(d, o)) >= EntrySize(|name|)
    requires d' == InsertAt(d, o, ino, name, kind)
    ensures |d'| == |d| && o <= |d| && Next(d, o) <= |d| && d'[0..o] == d[0..o] && d'[Next(d, o)..] == d[Next(d, o)..]
  {
    hide Record, EntrySize, Le16;
  }

  lemma InsertedOld(d: seq<byte>, o: nat, ino: u32, name: Name, kind: byte, d': seq<byte>, m: nat)
    requires Fits(d, o) && |name| < 0x100 && RecLen(d, o) - EntrySize(NameLen(d, o)) >= EntrySize(|name|)
    requires d' == InsertAt(d, o, ino, name, kind) && m == o + EntrySize(NameLen(d, o))
    ensures Fits(d', o) && Next(d', o) == m && EntryAt(d', o) == EntryAt(d, o)
  {
    FitsRecord(d, o);
    var nm, k := NameAt(d, o), d[o + 7];
    RecordResized(d, o, InodeAt(d, o), RecLen(d, o), nm, k, m - o);
    RecordKept(PutLe16(d, o + 4, m - o), d', o, InodeAt(d, o), m - o, nm, k);
    RecordFits(d', o, InodeAt(d, o), m - o, nm, k);
    hide Record, EntryAt, NameAt, PutEntry, PutLe16;
  }

  lemma InsertedNew(d: seq<byte>, o: nat, ino: u32, name: Name, kind: byte, d': seq<byte>, m: nat)
    requires Fits(d, o) && |name| < 0x100 && RecLen(d, o) - EntrySize(NameLen(d, o)) >= EntrySize(|name|) && ino != 0
    requires d' == InsertAt(d, o, ino, name, kind) && m == o + EntrySize(NameLen(d, o))
    ensures Fits(d', m) && Next(d', m) == Next(d, o) && EntryAt(d', m) == [Entry(name, ino, kind)]
  {
    hide Record, EntryAt, NameAt, Le16, Le32, EntrySize, InodeAt;
    assert d' == PutEntry(PutLe16(d, o + 4, m - o), m, ino, RecLen(d, o) - (m - o), name, kind);
    RecordFits(d', m, ino, RecLen(d, o) - (m - o), name, kind);
  }

  lemma RecordResized(d: seq<byte>, o: nat, ino: u32, len: u16, name: Name, kind: byte, n: u16)
    requires Record(d, o, ino, len, name, kind)
    ensures Record(PutLe16(d, o + 4, n), o, ino, n, name, kind)
  {
  }

  lemma RecordKept(c: seq<byte>, d: seq<byte>, o: nat, ino: u32, len: u16, name: Name, kind: byte)
    requires Record(c, o, ino, len, name, kind) && |d| == |c| && forall i :: o <= i < o + 8 + |name| ==> d[i] == c[i]
    ensures Record(d, o, ino, len, name, kind)
  {
  }

  /** Inserting keeps the tiling and adds exactly one live entry. */
  lemma Inserted(d: seq<byte>, o: nat, ino: u32, name: Name, kind: byte, d': seq<byte>) returns (pre: seq<Entry>,
                 post: seq<Entry>)
    requires Reaches(d, 0, o) && Fits(d, o) && Tiled(d, Next(d, o)) && ino != 0
    requires |name| < 0x100 && RecLen(d, o) - EntrySize(NameLen(d, o)) >= EntrySize(|name|)
    requires d' == InsertAt(d, o, ino, name, kind)
    ensures |d'| == |d| && Tiled(d', 0) && Tiled(d, 0)
    ensures Live(d, 0) == pre + post && Live(d', 0) == pre + [Entry(name, ino, kind)] + post
  {
    hide Tiled, Live, Reaches, LiveTo, EntryAt, Next, InsertAt, EntrySize;
    ghost var m := o + EntrySize(NameLen(d, o));
    InsertedFrame(d, o, ino, name, kind, d');
    InsertedOld(d, o, ino, name, kind, d', m);
    InsertedNew(d, o, ino, name, kind, d', m);
    pre, post := LiveTo(d, 0, o) + EntryAt(d, o), Live(d, Next(d, o));
    SameStretch(d, d', 0, o);
    SameTail(d, d', Next(d, o));
    Joined(d, o);
    Front(d', m);
    Joined(d', o);
  }

  /** Merging the record after `q` into it keeps the tiling and removes exactly that record's entry. */
  lemma Merged(d: seq<byte>, q: nat, o: nat, len: u16, d': seq<byte>) returns (pre: seq<Entry>, post: seq<Entry>)
    requires Reaches(d, 0, q) && Fits(d, q) && o == Next(d, q) && Fits(d, o) && Tiled(d, Next(d, o))
    requires len == RecLen(d, q) + RecLen(d, o) && d' == PutLe16(d, q + 4, len)
    ensures |d'| == |d| && Tiled(d', 0) && Tiled(d, 0)
    ensures Live(d, 0) == pre + EntryAt(d, o) + post && Live(d', 0) == pre + post
    ensures Reaches(d, 0, o) && pre == LiveTo(d, 0, o)
  {
    hide *;
    MergedRecord(d, q, o, len, d');
    ReachesOn(d, 0, q);
    pre, post := LiveTo(d, 0, o), Live(d, Next(d, o));
    SameStretch(d, d', 0, q);
    SameTail(d, d', Next(d, o));
    Joined(d, o);
    Joined(d', q);
  }

  lemma MergedRecord(d: seq<byte>, q: nat, o: nat, len: u16, d': seq<byte>)
    requires Fits(d, q) && o == Next(d, q) && Fits(d, o) && len == RecLen(d, q) + RecLen(d, o)
    requires d' == PutLe16(d, q + 4, len)
    ensures |d'| == |d| && q <= |d| && d'[0..q] == d[0..q] && Next(d, o) <= |d| && d'[Next(d, o)..] == d[Next(d, o)..]
    ensures Fits(d', q) && Next(d', q) == Next(d, o) && EntryAt(d', q) == EntryAt(d, q)
  {
    FitsRecord(d, q);
    RecordResized(d, q, InodeAt(d, q), RecLen(d, q), NameAt(d, q), d[q + 7], len);
    RecordFits(d', q, InodeAt(d, q), len, NameAt(d, q), d[q + 7]);
  }

  lemma ClearedRecord(d: seq<byte>, d': seq<byte>)
    requires Fits(d, 0) && d' == PutLe32(d, 0, 0)
    ensures |d'| == |d| && Next(d, 0) <= |d| && d'[Next(d, 0)..] == d[Next(d, 0)..]
    ensures Fits(d', 0) && Next(d', 0) == Next(d, 0) && EntryAt(d', 0) == []
  {
    FitsRecord(d, 0);
    RecordFits(d', 0, 0, RecLen(d, 0), NameAt(d, 0), d[7]);
  }

  /** Zeroing the first record's inode keeps the tiling and removes exactly its entry. */
  lemma Cleared(d: seq<byte>, d': seq<byte>)
    requires Fits(d, 0) && Tiled(d, Next(d, 0)) && d' == PutLe32(d, 0, 0)
    ensures |d'| == |d| && Tiled(d', 0)
    ensures Tiled(d, 0) && Live(d, 0) == EntryAt(d, 0) + Live(d', 0)
  {
    hide *;
    ClearedRecord(d, d');
    SameTail(d, d', Next(d, 0));
    Front(d, 0);
    Front(d', 0);
  }

  /** A fresh block holding one record that spans it. */
  function NewBlock(bs: nat, ino: u32, name: Name, kind: byte): seq<byte>
    requires EntrySize(|name|) <= bs < 0x1_0000 && |name| < 0x100
  {
    PutEntry(Zeros(bs), 0, ino, bs, name, kind)
  }

  /** Growing by one block keeps the tiling and appends exactly one live entry. */
  lemma Appended(d: seq<byte>, bs: nat, ino: u32, name: Name, kind: byte)
    requires Tiled(d, 0) && EntrySize(|name|) <= bs < 0x1_0000 && |name| < 0x100 && ino != 0
    ensures Tiled(d + NewBlock(bs, ino, name, kind), 0)
    ensures Live(d + NewBlock(bs, ino, name, kind), 0) == Live(d, 0) + [Entry(name, ino, kind)]
  {
    var b := NewBlock(bs, ino, name, kind);
    var d' := d + b;
    assert d[0..|d|] == d'[0..|d|];
    assert forall i :: 0 <= i < bs ==> d'[|d| + i] == b[i];
    RecordFits(d', |d|, ino, bs, name, kind);
    hide NewBlock, Fits, EntryAt, Next;
    WholeChain(d, 0);
    SameStretch(d, d', 0, |d|);
    Joined(d', |d|);
  }

  // ----- the directory as a finite map

  /** The inode bound to `name`: that of the first entry with the name, or 0. */
  ghost function Lookup(es: seq<Entry>, name: Name): u32 {
    if es == [] then 0 else if es[0].name == name then es[0].inode else Lookup(es[1..], name)
  }

  ghost function Names(es: seq<Entry>): set<Name> { set e | e in es :: e.name }

  ghost predicate Unique(es: seq<Entry>) {
    forall i, j :: 0 <= i < j < |es| ==> es[i].name != es[j].name
  }

  ghost function Bindings(es: seq<Entry>): map<Name, u32> { map n | n in Names(es) :: Lookup(es, n) }

  lemma {:induction false} LookupConcat(a: seq<Entry>, b: seq<Entry>, name: Name)
    ensures Lookup(a + b, name) == if name in Names(a) then Lookup(a, name) else Lookup(b, name)
  {
    if a == [] {
      assert a + b == b;
    } else {
      assert (a + b)[1..] == a[1..] + b;
      LookupConcat(a[1..], b, name);
      assert name in Names(a) <==> a[0].name == name || name in Names(a[1..]) by { NamesFront(a, name); }
    }
  }

  lemma NamesFront(a: seq<Entry>, name: Name)
    requires a != []
    ensures name in Names(a) <==> a[0].name == name || name in Names(a[1..])
  {
    if name in Names(a) {
      var e :| e in a && e.name == name;
      assert e == a[0] || e in a[1..];
    }
  }

  /** One more entry with a new name is one more binding. */
  lemma BindInserted(pre: seq<Entry>, e: Entry, post: seq<Entry>)
    requires Unique(pre + post) && e.name !in Names(pre + post)
    ensures Unique(pre + [e] + post)
    ensures Bindings(pre + [e] + post) == Bindings(pre + post)[e.name := e.inode]
  {
    var all, rest := pre + [e] + post, pre + post;
    assert forall x :: x in all <==> x in rest || x == e;
    forall i, j | 0 <= i < j < |all| ensures all[i].name != all[j].name {
      if i == |pre| {
        assert all[j] == rest[j - 1] && rest[j - 1] in rest;
      } else if j == |pre| {
        assert all[i] == rest[i] && rest[i] in rest;
      } else {
        assert all[i] == rest[if i < |pre| then i else i - 1] && all[j] == rest[if j < |pre| then j else j - 1];
      }
    }
    forall n | n in Names(all) ensures Lookup(all, n) == if n == e.name then e.inode else Lookup(rest, n) {
      assert all == pre + ([e] + post);
      LookupConcat(pre, [e] + post, n);
      LookupConcat([e], post, n);
      LookupConcat(pre, post, n);
      assert Names([e]) == {e.name} by { assert [e][0] == e; }
      assert n in Names(pre) ==> n in Names(rest);
    }
    assert Names(all) == Names(rest) + {e.name};
    hide Lookup, Unique;
  }

  /** One entry fewer is one binding fewer. */
  lemma BindRemoved(pre: seq<Entry>, e: Entry, post: seq<Entry>)
    requires Unique(pre + [e] + post)
    ensures Unique(pre + post) && e.name !in Names(pre + post)
    ensures Bindings(pre + post) == Bindings(pre + [e] + post) - {e.name}
  {
    var all, rest := pre + [e] + post, pre + post;
    assert all[|pre|] == e;
    forall i | 0 <= i < |rest| ensures rest[i] == all[if i < |pre| then i else i + 1] && rest[i].name != e.name {}
    assert Unique(rest) && e.name !in Names(rest);
    BindInserted(pre, e, post);
  }

  // ----- the loops over a directory buffer

  lemma OnChain(d: seq<byte>, o: nat)
    requires Tiled(d, o) && o < |d|
    ensures o + 8 <= |d| && RecLen(d, o) > 0 && Fits(d, o) && Tiled(d, Next(d, o))
    ensures Live(d, o) == EntryAt(d, o) + Live(d, Next(d, o))
  {
  }

  /** The record at `o` is live and carries `name`. */
  predicate Matches(d: seq<byte>, o: nat, name: Name)
    requires Fits(d, o)
  {
    InodeAt(d, o) != 0 && NameLen(d, o) == |name| && d[o + 8..o + 8 + |name|] == name
  }

  lemma LookupStep(d: seq<byte>, o: nat, name: Name)
    requires Tiled(d, o) && o < |d|
    ensures Fits(d, o) && Tiled(d, Next(d, o))
    ensures Lookup(Live(d, o), name) == if Matches(d, o, name) then InodeAt(d, o) else Lookup(Live(d, Next(d, o)), name)
    ensures Matches(d, o, name) ==> EntryAt(d, o) == [Entry(name, InodeAt(d, o), d[o + 7])]
    ensures Matches(d, o, name) <==> name in Names(EntryAt(d, o))
  {
    OnChain(d, o);
    hide Live, Tiled;
    LookupConcat(EntryAt(d, o), Live(d, Next(d, o)), name);
    if InodeAt(d, o) != 0 {
      var e := EntryAt(d, o)[0];
      assert EntryAt(d, o) == [e] && Names([e]) == {e.name};
      assert NameAt(d, o) == name <==> Matches(d, o, name);
    }
  }

  /** ext2_vfs_finddir: the inode bound to `name`, or 0. */
  method FindDir(d: seq<byte>, name: Name) returns (ino: u32)
    requires Tiled(d, 0)
    ensures ino == Lookup(Live(d, 0), name)
  {
    hide Tiled, Live, Lookup, Next;
    var o: nat := 0;
    while o < |d|
      invariant o <= |d| && Tiled(d, o) && Lookup(Live(d, 0), name) == Lookup(Live(d, o), name)
    {
      OnChain(d, o);
      LookupStep(d, o, name);
      if Matches(d, o, name) {
        return InodeAt(d, o);
      }
      o := Next(d, o);
    }
    EndOfChain(d, name);
    return 0;
  }

  lemma EndOfChain(d: seq<byte>, name: Name)
    ensures Tiled(d, |d|) && Live(d, |d|) == [] && Lookup([], name) == 0
  {
  }

  /** ext2_vfs_readdir: the `index`-th live entry. */
  method ReadDir(d: seq<byte>, index: nat) returns (r: Option<Entry>)
    requires Tiled(d, 0)
    ensures r == if index < |Live(d, 0)| then Some(Live(d, 0)[index]) else None
  {
    hide Tiled, Live, Next;
    var o: nat, current: nat := 0, 0;
    while o < |d|
      invariant o <= |d| && Tiled(d, o) && current <= index && current + |Live(d, o)| == |Live(d, 0)|
      invariant Live(d, 0)[current..] == Live(d, o)
    {
      OnChain(d, o);
      if InodeAt(d, o) != 0 {
        if current == index {
          assert Live(d, 0)[current..][0] == EntryAt(d, o)[0];
          return Some(Entry(NameAt(d, o), InodeAt(d, o), d[o + 7]));
        }
        current := current + 1;
        assert Live(d, o)[1..] == Live(d, Next(d, o));
      } else {
        assert Live(d, o) == Live(d, Next(d, o));
      }
      o := Next(d, o);
    }
    EndOfChain(d, []);
    return None;
  }

  /** Some record from `o` on has `needed` bytes to spare. */
  ghost predicate Room(d: seq<byte>, o: nat, needed: nat)
    requires Tiled(d, o)
    decreases |d| - o
  {
    o < |d| && (RecLen(d, o) - EntrySize(NameLen(d, o)) >= needed || Room(d, Next(d, o), needed))
  }

  /** The search half of ext2_add_dir_entry: place a record in the first gap that holds it.
      The entries before and after it are `pre` and `post`. */
  method AddEntry(d: seq<byte>, ino: u32, name: Name, kind: byte)
    returns (found: bool, d': seq<byte>, ghost pre: seq<Entry>, ghost post: seq<Entry>)
    requires Tiled(d, 0) && |name| < 0x100 && ino != 0
    ensures found <==> Room(d, 0, EntrySize(|name|))
    ensures |d'| == |d| && Tiled(d', 0) && Live(d, 0) == pre + post
    ensures Live(d', 0) == if found then pre + [Entry(name, ino, kind)] + post else Live(d, 0)
    ensures found && name !in Names(Live(d, 0)) ==> MergeFits(d', 0, name)
  {
    hide Tiled, Live, Next, Reaches, LiveTo, EntrySize, InsertAt, MergeFits, Names;
    var needed := EntrySize(|name|);
    var o: nat := 0;
    StartOfChain(d);
    while o < |d|
      invariant o <= |d| && Tiled(d, o) && Reaches(d, 0, o)
      invariant Room(d, 0, needed) <==> Room(d, o, needed)
    {
      OnChain(d, o);
      if RecLen(d, o) - EntrySize(NameLen(d, o)) >= needed {
        d' := InsertAt(d, o, ino, name, kind);
        pre, post := Inserted(d, o, ino, name, kind, d');
        if name !in Names(Live(d, 0)) {
          InsertedMergeFits(d, o, ino, name, kind, d');
        }
        return true, d', pre, post;
      }
      ReachesOn(d, 0, o);
      o := Next(d, o);
    }
    return false, d, Live(d, 0), [];
  }

  lemma StartOfChain(d: seq<byte>)
    ensures Reaches(d, 0, 0) && LiveTo(d, 0, 0) == [] && Names([]) == {}
  {
  }

  /** Where removing `name` merges: the first record from `o` on whose successor carries the name, or
      the end of the directory. */
  ghost function Spot(d: seq<byte>, o: nat, name: Name): (q: nat)
    requires Tiled(d, o)
    ensures q <= |d|
    ensures q < |d| ==> Fits(d, q) && Fits(d, Next(d, q)) && Matches(d, Next(d, q), name)
    decreases |d| - o
  {
    if o == |d| then o else
    var n := Next(d, o);
    if n < |d| && Fits(d, n) && Matches(d, n, name) then o else Spot(d, n, name)
  }

  /** The length of the record at `q` and of its successor together. */
  function Sum(d: seq<byte>, q: nat): nat
    requires Fits(d, q) && Fits(d, Next(d, q))
  {
    RecLen(d, q) + RecLen(d, Next(d, q))
  }

  /** The record lengths that removing `name` adds up fit the 16-bit field. */
  ghost predicate MergeFits(d: seq<byte>, o: nat, name: Name)
    requires Tiled(d, o)
  {
    var q := Spot(d, o, name);
    q == |d| || Sum(d, q) < 0x1_0000
  }

  /** With length `len` the record at `q` still holds its own name and ends where records tile the rest. */
  ghost predicate Lands(d: seq<byte>, q: nat, len: nat)
    requires Fits(d, q)
  {
    EntrySize(NameLen(d, q)) <= len && q + len <= |d| && Tiled(d, q + len)
  }

  /** The 16-bit length that removing `name` stores lands on a record boundary. */
  ghost predicate MergeLands(d: seq<byte>, o: nat, name: Name)
    requires Tiled(d, o)
  {
    var q := Spot(d, o, name);
    q == |d| || Lands(d, q, Sum(d, q) % 0x1_0000)
  }

  /** And the entries from that boundary on are those behind the removed record. */
  ghost predicate MergeExact(d: seq<byte>, o: nat, name: Name)
    requires Tiled(d, o)
  {
    var q := Spot(d, o, name);
    q == |d| || (var len := Sum(d, q) % 0x1_0000;
      Lands(d, q, len) && Tiled(d, q + Sum(d, q)) && Live(d, q + len) == Live(d, q + Sum(d, q)))
  }

  /** The record at `q` has taken over its successor, which carries `name`. The length it stores is the
      true sum exactly when the sum fits, and what follows it is what follows that length. */
  ghost predicate MergedAt(d: seq<byte>, name: Name, d': seq<byte>, q: nat)
    requires Tiled(d, 0)
  {
    && Reaches(d, 0, q) && q == Spot(d, 0, name) < |d| == |d'|
    && var len := Sum(d, q) % 0x1_0000;
    && d' == PutLe16(d, q + 4, len) && (RecLen(d', q) == Sum(d, q) <==> MergeFits(d, 0, name))
    && (Tiled(d', 0) ==> Lands(d, q, len) && Live(d', 0) == LiveTo(d, 0, q) + EntryAt(d, q) + Live(d, q + len))
  }

  /** The outcome of removing `name`: `e` is the first entry that carries it, between `pre` and `post`.
      The directory stays tiled exactly if the entry is the first record or the length stored lands on a
      record boundary, and has exactly the other entries exactly if those are what follows there; the
      true sum of the lengths always does. */
  ghost predicate Removal(d: seq<byte>, name: Name, d': seq<byte>, pre: seq<Entry>, e: Entry, post: seq<Entry>) {
    && Tiled(d, 0) && |d'| == |d| && Live(d, 0) == pre + [e] + post
    && e.name == name && e.inode != 0 && name !in Names(pre) && |d| >= 8
    && (Tiled(d', 0) <==> Matches(d, 0, name) || MergeLands(d, 0, name))
    && (Tiled(d', 0) && Live(d', 0) == pre + post <==> Matches(d, 0, name) || MergeExact(d, 0, name))
    && (Matches(d, 0, name) || MergeFits(d, 0, name) ==> Tiled(d', 0) && Live(d', 0) == pre + post)
    && if Matches(d, 0, name) then d' == PutLe32(d, 0, 0) else exists q: nat :: MergedAt(d, name, d', q)
  }

  /** Storing another length in a record keeps the directory tiled exactly if that length lands on a
      record boundary. */
  lemma Relengthed(d: seq<byte>, q: nat, len: u16, d': seq<byte>)
    requires Reaches(d, 0, q) && Fits(d, q) && d' == PutLe16(d, q + 4, len) && q + len <= |d|
    ensures Tiled(d', 0) <==> Lands(d, q, len)
    ensures Tiled(d', 0) ==> Live(d', 0) == LiveTo(d, 0, q) + EntryAt(d, q) + Live(d, q + len)
  {
    hide Tiled, Live, Reaches, LiveTo, EntryAt, EntrySize, PutLe16, Next, Fits;
    RelengthedRecord(d, q, len, d');
    assert d[0..q] == d'[0..q];
    SameStretch(d, d', 0, q);
    if EntrySize(NameLen(d, q)) <= len {
      assert d[q + len..] == d'[q + len..];
      if Tiled(d, q + len) {
        SameTail(d, d', q + len);
        Joined(d', q);
      }
      if Tiled(d', 0) {
        TiledAt(d', 0, q);
        OnChain(d', q);
        SameTail(d', d, q + len);
      }
    } else {
      BrokenAt(d', q);
    }
  }

  lemma RelengthedRecord(d: seq<byte>, q: nat, len: u16, d': seq<byte>)
    requires Fits(d, q) && d' == PutLe16(d, q + 4, len) && q + len <= |d|
    ensures |d'| == |d| && q + 8 <= |d| && 8 <= EntrySize(NameLen(d, q))
    ensures forall i :: 0 <= i < |d| && !(q + 4 <= i < q + 6) ==> d'[i] == d[i]
    ensures Fits(d', q) <==> EntrySize(NameLen(d, q)) <= len
    ensures Fits(d', q) ==> Next(d', q) == q + len && EntryAt(d', q) == EntryAt(d, q)
  {
    FitsRecord(d, q);
    RecordResized(d, q, InodeAt(d, q), RecLen(d, q), NameAt(d, q), d[q + 7], len);
    if EntrySize(NameLen(d, q)) <= len {
      RecordFits(d', q, InodeAt(d, q), len, NameAt(d, q), d[q + 7]);
    }
  }

  lemma RemovedFirst(d: seq<byte>, name: Name, d': seq<byte>) returns (e: Entry, post: seq<Entry>)
    requires Tiled(d, 0) && d != [] && Matches(d, 0, name) && d' == PutLe32(d, 0, 0)
    ensures Removal(d, name, d', [], e, post) && e.inode == InodeAt(d, 0)
  {
    OnChain(d, 0);
    LookupStep(d, 0, name);
    Cleared(d, d');
    e, post := EntryAt(d, 0)[0], Live(d', 0);
    assert [] + [e] + post == [e] + post && [] + post == post;
    hide Tiled, Live, EntryAt;
  }

  lemma RemovedLater(d: seq<byte>, name: Name, q: nat, o: nat, d': seq<byte>) returns (pre: seq<Entry>, e: Entry,
                     post: seq<Entry>)
    requires Tiled(d, 0) && Reaches(d, 0, q) && Fits(d, q) && o == Next(d, q) && Tiled(d, o) && o < |d|
    requires d != [] && Fits(d, 0) && !Matches(d, 0, name) && Fits(d, o) && Matches(d, o, name)
    requires Tiled(d, q) && Spot(d, 0, name) == Spot(d, q, name)
    requires Reaches(d, 0, o) && name !in Names(LiveTo(d, 0, o))
    requires d' == PutLe16(d, q + 4, (RecLen(d, q) + RecLen(d, o)) % 0x1_0000)
    ensures Removal(d, name, d', pre, e, post) && e.inode == InodeAt(d, o)
  {
    hide Tiled, Live, Next, LiveTo, Reaches, Fits, EntryAt, Matches, InodeAt, Names, Spot, Lands, RecLen,
      MergedAt, MergeLands, MergeExact, MergeFits, PutLe16;
    OnChain(d, o);
    LookupStep(d, o, name);
    SpotHere(d, q, name);
    e := Entry(name, InodeAt(d, o), d[o + 7]);
    pre, post := LiveTo(d, 0, o), Live(d, Next(d, o));
    LiveInode(d, o, name);
    SumEnd(d, q);
    MergeStored(d, name, d', q);
    MergeKept(d, name, d', q, pre, post);
    Joined(d, o);
    if MergeFits(d, 0, name) {
      MergedWhole(d, name, q, o, d', pre, e, post);
    }
  }

  lemma MergedWhole(d: seq<byte>, name: Name, q: nat, o: nat, d': seq<byte>, pre: seq<Entry>, e: Entry,
                    post: seq<Entry>)
    requires Tiled(d, 0) && Reaches(d, 0, q) && q == Spot(d, 0, name) < |d| && o == Next(d, q) && Tiled(d, Next(d, o))
    requires d' == PutLe16(d, q + 4, Sum(d, q) % 0x1_0000) && MergeFits(d, 0, name)
    requires Reaches(d, 0, o) && pre == LiveTo(d, 0, o) && EntryAt(d, o) == [e] && post == Live(d, Next(d, o))
    ensures Tiled(d', 0) && Live(d', 0) == pre + post
  {
    hide Tiled, Live, Next, LiveTo, Reaches, Fits, EntryAt, Matches, Spot, RecLen, PutLe16;
    var a, b := Merged(d, q, o, Sum(d, q), d');
    Joined(d, o);
    SameSuffix(pre + [e], post, b);
  }

  lemma MergeStored(d: seq<byte>, name: Name, d': seq<byte>, q: nat)
    requires Tiled(d, 0) && Reaches(d, 0, q) && q == Spot(d, 0, name) < |d|
    requires d' == PutLe16(d, q + 4, Sum(d, q) % 0x1_0000)
    ensures MergedAt(d, name, d', q) && (Tiled(d', 0) <==> MergeLands(d, 0, name)) && |d| >= 8
  {
    hide Tiled, Reaches, Spot, Lands, Live, LiveTo, EntryAt, EntrySize;
    assert q + Sum(d, q) <= |d|;
    Relengthed(d, q, Sum(d, q) % 0x1_0000, d');
    assert RecLen(d', q) == Sum(d, q) % 0x1_0000;
  }

  lemma SumEnd(d: seq<byte>, q: nat)
    requires Fits(d, q) && Fits(d, Next(d, q))
    ensures q + Sum(d, q) == Next(d, Next(d, q))
  {
  }

  lemma MergeKept(d: seq<byte>, name: Name, d': seq<byte>, q: nat, pre: seq<Entry>, post: seq<Entry>)
    requires Tiled(d, 0) && MergedAt(d, name, d', q) && (Tiled(d', 0) <==> MergeLands(d, 0, name))
    requires Reaches(d, 0, Next(d, q)) && pre == LiveTo(d, 0, Next(d, q))
    requires Tiled(d, q + Sum(d, q)) && post == Live(d, q + Sum(d, q))
    ensures Tiled(d', 0) && Live(d', 0) == pre + post <==> MergeExact(d, 0, name)
  {
    hide Tiled, Reaches, Spot, Live, LiveTo, EntryAt, EntrySize, MergeFits, Sum, RecLen;
    ReachesOn(d, 0, q);
    var len := Sum(d, q) % 0x1_0000;
    if Tiled(d', 0) && pre + Live(d, q + len) == pre + post {
      SameSuffix(pre, Live(d, q + len), post);
    }
  }

  lemma SameSuffix<T>(p: seq<T>, a: seq<T>, b: seq<T>)
    requires p + a == p + b
    ensures a == b
  {
    assert a == (p + a)[|p|..] && b == (p + b)[|p|..];
  }

  lemma LiveInode(d: seq<byte>, o: nat, name: Name)
    requires Fits(d, o) && Matches(d, o, name)
    ensures InodeAt(d, o) != 0
  {
  }

  lemma SpotHere(d: seq<byte>, q: nat, name: Name)
    requires Tiled(d, q) && q < |d| && Next(d, q) < |d| && Fits(d, Next(d, q)) && Matches(d, Next(d, q), name)
    ensures Spot(d, q, name) == q
  {
  }

  /** ext2_remove_dir_entry on the directory's bytes. */
  method RemoveEntry(d: seq<byte>, name: Name)
    returns (r: int, d': seq<byte>, ghost pre: seq<Entry>, ghost e: Entry, ghost post: seq<Entry>)
    requires Tiled(d, 0)
    ensures r == var n := Lookup(Live(d, 0), name); if 0 < |name| < 0x100 && 0 < n < 0x8000_0000 then n else -1
    ensures r == -1 ==> d' == d
    ensures r != -1 ==> Removal(d, name, d', pre, e, post) && e.inode == r
  {
    hide Tiled, Live, Next, Reaches, LiveTo, Lookup, Spot, Removal, Matches;
    e := Entry([], 0, 0);
    pre, post, d' := [], [], d;
    if |name| > 255 || |name| == 0 {
      return -1, d, pre, e, post;
    }
    var o: nat, q: int := 0, -1;
    StartOfChain(d);
    while o < |d|
      invariant o <= |d| && Tiled(d, o) && Reaches(d, 0, o) && name !in Names(LiveTo(d, 0, o))
      invariant Lookup(Live(d, 0), name) == Lookup(Live(d, o), name)
      invariant (q < 0 <==> o == 0) && (o > 0 ==> d != [] && Fits(d, 0) && !Matches(d, 0, name))
      invariant 0 <= q ==> q < |d| && Reaches(d, 0, q) && Fits(d, q) && Next(d, q) == o && Tiled(d, q)
      invariant 0 <= q ==> Spot(d, 0, name) == Spot(d, q, name)
    {
      OnChain(d, o);
      LookupStep(d, o, name);
      if Matches(d, o, name) {
        var ino := InodeAt(d, o);
        if q >= 0 {
          d' := PutLe16(d, q + 4, (RecLen(d, q) + RecLen(d, o)) % 0x1_0000);
          pre, e, post := RemovedLater(d, name, q, o, d');
        } else {
          d' := PutLe32(d, o, 0);
          e, post := RemovedFirst(d, name, d');
        }
        if ino >= 0x8000_0000 {
          return -1, d, pre, e, post;
        }
        return ino, d', pre, e, post;
      }
      WalkStep(d, q, o, name);
      q, o := o, Next(d, o);
    }
    EndOfChain(d, name);
    return -1, d, pre, e, post;
  }

  lemma WalkStep(d: seq<byte>, q: int, o: nat, name: Name)
    requires Tiled(d, 0) && Tiled(d, o) && o < |d| && Fits(d, o) && !Matches(d, o, name) && Tiled(d, Next(d, o))
    requires Reaches(d, 0, o) && name !in Names(LiveTo(d, 0, o))
    requires 0 <= q ==>
      q < |d| && Fits(d, q) && Next(d, q) == o && Tiled(d, q) && Spot(d, 0, name) == Spot(d, q, name)
    requires q < 0 ==> o == 0
    ensures Reaches(d, 0, Next(d, o)) && name !in Names(LiveTo(d, 0, Next(d, o)))
    ensures Spot(d, 0, name) == Spot(d, o, name)
  {
    ReachesOn(d, 0, o);
    LookupStep(d, o, name);
    assert forall x :: x in LiveTo(d, 0, Next(d, o)) <==> x in LiveTo(d, 0, o) || x in EntryAt(d, o);
    if 0 <= q {
      assert Spot(d, q, name) == Spot(d, o, name);
    }
    hide Live, LiveTo, Reaches, EntryAt, Matches;
  }

  // ----- a fresh entry can be removed again

  lemma {:induction false} SpotVia(d: seq<byte>, q: nat, o: nat, name: Name)
    requires Tiled(d, q) && Reaches(d, q, o) && Fits(d, o) && Tiled(d, o)
    requires name !in Names(LiveTo(d, q, o)) && !Matches(d, o, name)
    ensures Spot(d, q, name) == Spot(d, o, name)
    decreases o - q
  {
    if q < o {
      var n := Next(d, q);
      NotAhead(d, n, o, name);
      assert forall e :: e in LiveTo(d, n, o) ==> e in LiveTo(d, q, o);
      SpotVia(d, n, o, name);
    }
  }

  /** No record from `n` up to and including `o` carries the name. */
  lemma NotAhead(d: seq<byte>, n: nat, o: nat, name: Name)
    requires Tiled(d, n) && Reaches(d, n, o) && Fits(d, o) && !Matches(d, o, name) && name !in Names(LiveTo(d, n, o))
    ensures n < |d| && Fits(d, n) && !Matches(d, n, name)
  {
    if n < o {
      LookupStep(d, n, name);
      assert forall e :: e in EntryAt(d, n) ==> e in LiveTo(d, n, o);
      assert Names(EntryAt(d, n)) <= Names(LiveTo(d, n, o));
    }
  }

  /** The record just inserted came out of its predecessor's slack, so merging it back fits. */
  lemma InsertedMergeFits(d: seq<byte>, o: nat, ino: u32, name: Name, kind: byte, d': seq<byte>)
    requires Reaches(d, 0, o) && Fits(d, o) && Tiled(d, Next(d, o)) && ino != 0
    requires |name| < 0x100 && RecLen(d, o) - EntrySize(NameLen(d, o)) >= EntrySize(|name|)
    requires d' == InsertAt(d, o, ino, name, kind) && Tiled(d, 0) && name !in Names(Live(d, 0)) && Tiled(d', 0)
    ensures MergeFits(d', 0, name)
  {
    hide Tiled, Live, Reaches, LiveTo, InsertAt, EntrySize, Spot, RecLen, NameLen, EntryAt;
    ghost var m := o + EntrySize(NameLen(d, o));
    InsertedFrame(d, o, ino, name, kind, d');
    InsertedOld(d, o, ino, name, kind, d', m);
    InsertedNew(d, o, ino, name, kind, d', m);
    SameStretch(d, d', 0, o);
    Joined(d, o);
    TiledAt(d', 0, o);
    OnChain(d', o);
    assert forall e :: e in EntryAt(d, o) || e in LiveTo(d, 0, o) ==> e in Live(d, 0);
    LookupStep(d', o, name);
    assert !Matches(d', o, name);
    OnChain(d', m);
    LookupStep(d', m, name);
    NewMatches(d', m, ino, name, kind);
    SpotHere(d', o, name);
    SpotVia(d', 0, o, name);
  }

  lemma NewMatches(d: seq<byte>, m: nat, ino: u32, name: Name, kind: byte)
    requires Fits(d, m) && EntryAt(d, m) == [Entry(name, ino, kind)]
    ensures Matches(d, m, name)
  {
  }

  // ----- where the code departs from tiling

  lemma {:induction false} TiledAt(d: seq<byte>, o: nat, q: nat)
    requires Tiled(d, o) && Reaches(d, o, q)
    ensures Tiled(d, q)
    decreases q - o
  {
    if o < q {
      TiledAt(d, Next(d, o), q);
    }
  }

  lemma ShiftedRecord(d: seq<byte>, t: seq<byte>, o: nat)
    requires o < |t|
    ensures Fits(d + t, |d| + o) <==> Fits(t, o)
    ensures Fits(t, o) ==> Next(d + t, |d| + o) == |d| + Next(t, o) && EntryAt(d + t, |d| + o) == EntryAt(t, o)
  {
    assert forall i :: 0 <= i < |t| ==> (d + t)[|d| + i] == t[i];
    if Fits(t, o) {
      var n := NameLen(t, o);
      assert (d + t)[|d| + o + 8..|d| + o + 8 + n] == t[o + 8..o + 8 + n];
    }
  }

  /** Records behind a directory tile the same way as alone. */
  lemma {:induction false} Shifted(d: seq<byte>, t: seq<byte>, o: nat)
    requires o <= |t|
    ensures Tiled(d + t, |d| + o) <==> Tiled(t, o)
    ensures Tiled(t, o) ==> Live(d + t, |d| + o) == Live(t, o)
    decreases |t| - o
  {
    if o < |t| {
      hide EntryAt, Fits, RecLen;
      ShiftedRecord(d, t, o);
      if Fits(t, o) {
        FitsAhead(t, o);
        Shifted(d, t, Next(t, o));
      }
    }
  }

  lemma FitsAhead(d: seq<byte>, o: nat)
    requires Fits(d, o)
    ensures o < Next(d, o) <= |d|
  {
  }

  /** A directory with a tail is tiled exactly if the tail is. */
  lemma Extended(d: seq<byte>, t: seq<byte>)
    requires Tiled(d, 0)
    ensures Tiled(d + t, 0) <==> Tiled(t, 0)
    ensures Tiled(t, 0) ==> Live(d + t, 0) == Live(d, 0) + Live(t, 0)
  {
    hide Tiled, Live, Reaches, LiveTo;
    Shifted(d, t, 0);
    WholeChain(d, 0);
    assert d[0..|d|] == (d + t)[0..|d|];
    SameStretch(d, d + t, 0, |d|);
    if Tiled(d + t, |d|) {
      Split(d + t, 0, |d|);
    }
    if Tiled(d + t, 0) {
      TiledAt(d + t, 0, |d|);
    }
  }

  /** The first `h` bytes of a new block; the rest of it was never written. */
  function Torn(bs: nat, ino: u32, name: Name, kind: byte, h: nat): (t: seq<byte>)
    requires EntrySize(|name|) <= bs < 0x1_0000 && |name| < 0x100 && h <= bs
    ensures |t| == bs
  {
    NewBlock(bs, ino, name, kind)[..h] + Zeros(bs - h)
  }

  /** For the block sizes of ext2 a torn block is a record exactly if its length field was written, and
      is the new entry if its name was. */
  lemma TornTiles(bs: nat, ino: u32, name: Name, kind: byte, h: nat)
    requires 0x400 <= bs < 0x1_0000 && bs % 0x100 == 0 && |name| < 0x100 && h <= bs
    ensures EntrySize(|name|) <= bs
    ensures Tiled(Torn(bs, ino, name, kind, h), 0) <==> h >= 6
    ensures h >= 8 + |name| && ino != 0 ==>
      Tiled(Torn(bs, ino, name, kind, h), 0) && Live(Torn(bs, ino, name, kind, h), 0) == [Entry(name, ino, kind)]
  {
    var b, t := NewBlock(bs, ino, name, kind), Torn(bs, ino, name, kind, h);
    NewBlockBytes(bs, ino, name, kind);
    hide NewBlock, PutEntry;
    assert forall i :: 0 <= i < bs ==> t[i] == if i < h then b[i] else 0;
    hide Torn;
    TornFits(t, bs, h, |name|);
    if h >= 8 + |name| {
      RecordKept(b, t, 0, ino, bs, name, kind);
      RecordFits(t, 0, ino, bs, name, kind);
      assert Tiled(t, bs) && Live(t, bs) == [];
    }
  }

  lemma NewBlockBytes(bs: nat, ino: u32, name: Name, kind: byte)
    requires 0x400 <= bs < 0x1_0000 && bs % 0x100 == 0 && |name| < 0x100
    ensures EntrySize(|name|) <= bs && |NewBlock(bs, ino, name, kind)| == bs
    ensures var b := NewBlock(bs, ino, name, kind);
      Record(b, 0, ino, bs, name, kind) && b[4] == 0 && b[5] == bs / 0x100 && b[6] == |name|
  {
    hide PutEntry;
    var b := NewBlock(bs, ino, name, kind);
    assert Le16(b, 4) == bs;
  }

  lemma TornFits(t: seq<byte>, bs: nat, h: nat, n: nat)
    requires 0x400 <= bs < 0x1_0000 && bs % 0x100 == 0 && |t| == bs && n < 0x100
    requires t[4] == 0 && t[5] == (if 5 < h then bs / 0x100 else 0) && t[6] == if 6 < h then n else 0
    ensures Tiled(t, 0) <==> h >= 6
  {
    assert RecLen(t, 0) == 0x100 * (t[5] as int);
    assert h >= 6 ==> Fits(t, 0) && Next(t, 0) == bs;
    assert Tiled(t, bs);
  }

  /** In particular a 16-bit length too short for the record itself breaks the chain. */
  lemma MergeWraps(d: seq<byte>, name: Name, d': seq<byte>, q: nat)
    requires Tiled(d, 0) && MergedAt(d, name, d', q) && Sum(d, q) % 0x1_0000 < EntrySize(NameLen(d, q))
    ensures !Tiled(d', 0)
  {
    hide Tiled, Spot, Live, LiveTo, Reaches;
  }

  lemma BrokenAt(d: seq<byte>, q: nat)
    requires Reaches(d, 0, q) && q < |d| && !Fits(d, q)
    ensures !Tiled(d, 0)
  {
    if Tiled(d, 0) {
      TiledAt(d, 0, q);
    }
  }

  /** Two records of 32 KiB each, named a and b. */
  function Halves(): seq<byte> {
    seq(0x1_0000, i requires 0 <= i < 0x1_0000 =>
      var j := i % 0x8000; if j == 0 then 2 else if j == 5 then 0x80 else if j == 6 then 1
        else if j == 8 then 97 + i / 0x8000 else 0)
  }

  lemma HalvesRecords(d: seq<byte>)
    requires d == Halves()
    ensures |d| == 0x1_0000 && Fits(d, 0) && Fits(d, 0x8000) && Next(d, 0) == 0x8000 && Next(d, 0x8000) == 0x1_0000
    ensures RecLen(d, 0) == RecLen(d, 0x8000) == 0x8000 && NameLen(d, 0) == 1
    ensures EntryAt(d, 0) == [Entry([97], 2, 0)] && EntryAt(d, 0x8000) == [Entry([98], 2, 0)]
    ensures !Matches(d, 0, [98]) && Matches(d, 0x8000, [98])
  {
    assert RecLen(d, 0) == 0x8000 && NameLen(d, 0) == 1 && InodeAt(d, 0) == 2 && d[7] == 0 && d[8] == 97;
    assert RecLen(d, 0x8000) == 0x8000 && NameLen(d, 0x8000) == 1 && InodeAt(d, 0x8000) == 2 && d[0x8007] == 0;
    assert d[0x8008] == 98;
    assert d[8..9] == [97] && d[0x8008..0x8009] == [98];
  }

  /** Removing b from this directory stores a record length of zero: nothing of it can be read again. */
  lemma HalvesLost()
    ensures Tiled(Halves(), 0) && Live(Halves(), 0) == [Entry([97], 2, 0), Entry([98], 2, 0)]
    ensures !MergeFits(Halves(), 0, [98])
    ensures forall d', pre, e, post :: Removal(Halves(), [98], d', pre, e, post) ==> !Tiled(d', 0)
  {
    hide Halves, EntryAt, RecLen, NameLen, Matches, Next, Fits;
    var d := Halves();
    HalvesRecords(d);
    assert Spot(d, 0, [98]) == 0;
    assert Tiled(d, 0x1_0000) && Tiled(d, 0x8000);
    assert Live(d, 0x8000) == [Entry([98], 2, 0)];
    forall d', pre, e, post | Removal(d, [98], d', pre, e, post) ensures !Tiled(d', 0) {
      var q: nat :| MergedAt(d, [98], d', q);
      MergeWraps(d, [98], d', q);
    }
  }
}
