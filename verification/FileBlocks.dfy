/**
 Blocks and inodes of kernel/fs.c: the free bitmap, the direct and indirect block map, and
 truncation.

 A block's contents are kept twice, as bytes and as the words an indirect block holds;
 each block in use is read one way only. The bitmap blocks are one run of bytes.
 */
module FileBlocks {

  const BSIZE: nat := 1024
  const BPB: nat := 8192                 // bits per bitmap block
  const NDIRECT: nat := 12
  const NINDIRECT: nat := 256
  const MAXFILE: nat := 268
  const SLOTS: nat := 269                // the direct blocks, the indirect block, the blocks it lists
  const IPB: nat := 16                   // inodes per block

  type Block = b: seq<int> | |b| == BSIZE witness seq(BSIZE, i => 0)
  type Words = w: seq<nat> | |w| == NINDIRECT witness seq(NINDIRECT, i => 0)
  type Addrs = a: seq<nat> | |a| == 13 witness seq(13, i => 0)

  datatype Inode = Inode(kind: int, nlink: int, size: nat, addrs: Addrs)

  /** What a block is used for; Own(i, k) is slot k of inode i. */
  datatype Use = Free | Meta | Own(i: nat, k: nat)

  datatype Snap = Snap(bits: seq<bv8>, bytes: seq<Block>, words: seq<Words>, ino: seq<Inode>, owner: seq<Use>)

  function ZeroBlock(): (b: Block)
    ensures forall i :: 0 <= i < BSIZE ==> b[i] == 0
  {
    seq(BSIZE, i => 0)
  }

  function ZeroWords(): (w: Words)
    ensures forall i :: 0 <= i < NINDIRECT ==> w[i] == 0
  {
    seq(NINDIRECT, i => 0)
  }

  function ZeroAddrs(): (a: Addrs)
    ensures forall i :: 0 <= i < 13 ==> a[i] == 0
  {
    seq(13, i => 0)
  }

  // ---------------------------------------------------------------- the bitmap

  /** 1 << k */
  function Mask(k: nat): bv8
    requires k < 8
  {
    if k == 0 then 1 else if k == 1 then 2 else if k == 2 then 4 else if k == 3 then 8
    else if k == 4 then 16 else if k == 5 then 32 else if k == 6 then 64 else 128
  }

  predicate On(x: bv8, k: nat)
    requires k < 8
  {
    x & Mask(k) != 0
  }

  function With(x: bv8, k: nat): bv8
    requires k < 8
  {
    x | Mask(k)
  }

  function Without(x: bv8, k: nat): bv8
    requires k < 8
  {
    x & !Mask(k)
  }

  lemma WithOn(x: bv8, k: nat, j: nat)
    requires k < 8 && j < 8
    ensures On(With(x, k), j) <==> j == k || On(x, j)
  {
  }

  lemma WithoutOn(x: bv8, k: nat, j: nat)
    requires k < 8 && j < 8
    ensures On(Without(x, k), j) <==> j != k && On(x, j)
  {
  }

  predicate Bit(bits: seq<bv8>, b: nat)
    requires b < 8 * |bits|
  {
    On(bits[b / 8], b % 8)
  }

  function SetBit(bits: seq<bv8>, b: nat): (r: seq<bv8>)
    requires b < 8 * |bits|
  {
    bits[b / 8 := With(bits[b / 8], b % 8)]
  }

  function ClearBit(bits: seq<bv8>, b: nat): (r: seq<bv8>)
    requires b < 8 * |bits|
  {
    bits[b / 8 := Without(bits[b / 8], b % 8)]
  }

  lemma SetBitOnly(bits: seq<bv8>, b: nat, c: nat)
    requires b < 8 * |bits| && c < 8 * |bits|
    ensures Bit(SetBit(bits, b), c) <==> b == c || Bit(bits, c)
  {
    hide On, With;
    WithOn(bits[b / 8], b % 8, c % 8);
  }

  lemma ClearBitOnly(bits: seq<bv8>, b: nat, c: nat)
    requires b < 8 * |bits| && c < 8 * |bits|
    ensures Bit(ClearBit(bits, b), c) <==> b != c && Bit(bits, c)
  {
    hide On, Without;
    WithoutOn(bits[b / 8], b % 8, c % 8);
  }

  /** The bits of the blocks of the file system say exactly which are in use. */
  ghost predicate Marked(bits: seq<bv8>, owner: seq<Use>) {
    && |owner| <= 8 * |bits|
    && forall b {:trigger owner[b]} :: 0 <= b < |owner| ==> (Bit(bits, b) <==> owner[b] != Free)
  }

  /** Block 0 is in use, so that 0 can stand for no block. */
  ghost predicate Counted(bits: seq<bv8>, owner: seq<Use>) {
    Marked(bits, owner) && 0 < |owner| && owner[0] == Meta
  }

  lemma MarkedTake(bits: seq<bv8>, owner: seq<Use>, b: nat, use: Use)
    requires Marked(bits, owner) && b < |owner| && owner[b] == Free && use != Free
    ensures Marked(SetBit(bits, b), owner[b := use])
  {
    forall c | 0 <= c < |owner| ensures Bit(SetBit(bits, b), c) <==> owner[b := use][c] != Free {
      SetBitOnly(bits, b, c);
      assert owner[c] != Free <==> Bit(bits, c);
    }
  }

  lemma CountedGive(bits: seq<bv8>, owner: seq<Use>, b: nat)
    requires Counted(bits, owner) && 0 < b < |owner|
    ensures Counted(ClearBit(bits, b), owner[b := Free])
  {
    forall c | 0 <= c < |owner| ensures Bit(ClearBit(bits, b), c) <==> owner[b := Free][c] != Free {
      ClearBitOnly(bits, b, c);
      assert owner[c] != Free <==> Bit(bits, c);
    }
  }

  // ---------------------------------------------------------------- block maps

  /** The block in slot k of inode i, 0 when there is none. */
  function Addr(s: Snap, i: nat, k: nat): nat
    requires i < |s.ino| && k < SLOTS
  {
    var a := s.ino[i].addrs;
    if k <= NDIRECT then a[k]
    else if a[NDIRECT] != 0 && a[NDIRECT] < |s.words| then s.words[a[NDIRECT]][k - NDIRECT - 1]
    else 0
  }

  /** The slot of block bn of a file. */
  function Slot(bn: nat): (k: nat)
    ensures bn < MAXFILE ==> k < SLOTS
  {
    if bn < NDIRECT then bn else bn + 1
  }

  /** Each slot's block belongs to it alone, and each owned block is in its slot. */
  ghost predicate Links(s: Snap) {
    && |s.bytes| == |s.words| == |s.owner|
    && (forall i: nat, k: nat {:trigger Addr(s, i, k)} :: i < |s.ino| && k < SLOTS && Addr(s, i, k) != 0 ==>
          Addr(s, i, k) < |s.owner| && s.owner[Addr(s, i, k)] == Own(i, k))
    && (forall b {:trigger s.owner[b]} :: 0 <= b < |s.owner| && s.owner[b].Own? ==>
          s.owner[b].i < |s.ino| && s.owner[b].k < SLOTS && Addr(s, s.owner[b].i, s.owner[b].k) == b)
  }

  /** A free inode has no blocks, and every block of a file below its size is there. */
  ghost predicate Sized(s: Snap) {
    forall i: nat {:trigger s.ino[i]} :: i < |s.ino| ==> InodeSized(s, i)
  }

  ghost predicate InodeSized(s: Snap, i: nat)
    requires i < |s.ino|
  {
    && s.ino[i].size <= MAXFILE * BSIZE
    && (s.ino[i].kind == 0 ==> s.ino[i].addrs == ZeroAddrs())
    && forall bn: nat {:trigger Slot(bn)} :: bn * BSIZE < s.ino[i].size ==> Addr(s, i, Slot(bn)) != 0
  }

  ghost predicate Exact(s: Snap) {
    Counted(s.bits, s.owner) && Links(s) && Sized(s)
  }

  /** The blocks in use are those of the metadata and those in the slots of allocated inodes, each in one slot only. */
  lemma ExactUse(s: Snap, b: nat)
    requires Exact(s) && b < |s.owner| && s.owner[b] != Meta
    ensures Bit(s.bits, b) <==> exists i: nat, k: nat :: i < |s.ino| && k < SLOTS && Addr(s, i, k) == b && b != 0
    ensures forall i: nat, k: nat, i': nat, k': nat ::
      i < |s.ino| && k < SLOTS && i' < |s.ino| && k' < SLOTS && Addr(s, i, k) == Addr(s, i', k') == b ==>
        (i, k) == (i', k')
    ensures forall i: nat, k: nat :: i < |s.ino| && k < SLOTS && Addr(s, i, k) == b ==> s.ino[i].kind != 0
  {
    if Bit(s.bits, b) {
      assert s.owner[b].Own?;
    }
    forall i: nat, k: nat | i < |s.ino| && k < SLOTS && Addr(s, i, k) == b ensures s.ino[i].kind != 0 {
      assert s.ino[i].kind == 0 ==> s.ino[i].addrs == ZeroAddrs();
    }
  }

  /** Slot k of inode i is now b; every other slot is as before. */
  ghost predicate AddrSet(s: Snap, t: Snap, i: nat, k: nat, b: nat) {
    && |t.ino| == |s.ino|
    && forall j: nat, l: nat {:trigger Addr(t, j, l)} :: j < |s.ino| && l < SLOTS ==>
         Addr(t, j, l) == if j == i && l == k then b else Addr(s, j, l)
  }

  /** The byte at offset x of file i; zero where it has no block. */
  function FileByte(s: Snap, i: nat, x: nat): int
    requires i < |s.ino|
  {
    if x / BSIZE >= MAXFILE then 0 else
    var a := Addr(s, i, Slot(x / BSIZE));
    if a != 0 && a < |s.bytes| then s.bytes[a][x % BSIZE] else 0
  }

  ghost predicate SameFiles(s: Snap, t: Snap) {
    && |t.ino| == |s.ino|
    && forall j: nat, x: nat {:trigger FileByte(t, j, x)} :: j < |s.ino| ==> FileByte(t, j, x) == FileByte(s, j, x)
  }

  lemma AddrSetSized(s: Snap, t: Snap, i: nat, k: nat, b: nat)
    requires Sized(s) && AddrSet(s, t, i, k, b) && b != 0 && i < |s.ino| && s.ino[i].kind != 0
    requires forall j: nat :: j < |s.ino| ==> t.ino[j] == s.ino[j].(addrs := t.ino[j].addrs)
    requires forall j: nat :: j < |s.ino| && j != i ==> t.ino[j] == s.ino[j]
    ensures Sized(t)
  {
    forall j: nat | j < |t.ino| ensures InodeSized(t, j) {
      assert InodeSized(s, j);
      forall bn: nat | bn * BSIZE < t.ino[j].size ensures Addr(t, j, Slot(bn)) != 0 {
        assert Addr(s, j, Slot(bn)) != 0;
      }
    }
  }

  function WithAddr(n: Inode, k: nat, b: nat): Inode
    requires k <= NDIRECT
  {
    var a: Addrs := n.addrs[k := b];
    n.(addrs := a)
  }

  /** ip->addrs[k] = b, for a block that was free and is zeroed. */
  lemma StoreAddr(s: Snap, t: Snap, i: nat, k: nat, b: nat)
    requires Links(s) && i < |s.ino| && k <= NDIRECT
    requires s.ino[i].addrs[k] == 0 && 0 < b < |s.owner| && s.owner[b] == Free
    requires t.words == s.words[b := ZeroWords()] && t.ino == s.ino[i := WithAddr(s.ino[i], k, b)]
    ensures AddrSet(s, t, i, k, b)
  {
    forall j: nat, l: nat | j < |s.ino| && l < SLOTS
      ensures Addr(t, j, l) == if j == i && l == k then b else Addr(s, j, l)
    {
      assert Addr(s, j, NDIRECT) == b ==> false;
    }
  }

  /** a[k] = b in the indirect block of i, for a block that was free and is zeroed. */
  lemma StoreWord(s: Snap, t: Snap, i: nat, k: nat, b: nat, w: Words)
    requires Links(s) && i < |s.ino| && k < NINDIRECT
    requires Addr(s, i, NDIRECT) != 0 && 0 < b < |s.owner| && s.owner[b] == Free
    requires t.ino == s.ino && Addr(s, i, NDIRECT) < |s.words| && w == s.words[Addr(s, i, NDIRECT)][k := b]
    requires t.words == s.words[b := ZeroWords()][Addr(s, i, NDIRECT) := w]
    ensures AddrSet(s, t, i, NDIRECT + 1 + k, b)
  {
    var n := Addr(s, i, NDIRECT);
    forall j: nat, l: nat | j < |s.ino| && l < SLOTS
      ensures Addr(t, j, l) == if j == i && l == NDIRECT + 1 + k then b else Addr(s, j, l)
    {
      var m := Addr(s, j, NDIRECT);
      assert m == n ==> j == i;
      assert m != 0 ==> m != b;
    }
  }

  /** Inode i may have gained blocks: no block has moved, no byte of any file has changed. */
  ghost predicate Grown(s: Snap, t: Snap, i: nat) {
    && i < |s.ino| && SameFiles(s, t) && |t.owner| == |s.owner|
    && (forall j: nat {:trigger t.ino[j]} :: j < |s.ino| && j != i ==> t.ino[j] == s.ino[j])
    && t.ino[i] == s.ino[i].(addrs := t.ino[i].addrs)
    && (forall j: nat, k: nat {:trigger Addr(t, j, k)} :: j < |s.ino| && k < SLOTS && Addr(s, j, k) != 0 ==>
      Addr(t, j, k) == Addr(s, j, k))
    && (forall b {:trigger t.owner[b]} :: 0 <= b < |s.owner| && s.owner[b] != Free ==> t.owner[b] == s.owner[b])
  }

  lemma GrownSelf(s: Snap, i: nat)
    requires i < |s.ino|
    ensures Grown(s, s, i)
  {
  }

  lemma GrownMore(s: Snap, t: Snap, u: Snap, i: nat)
    requires Grown(s, t, i) && Grown(t, u, i)
    ensures Grown(s, u, i)
  {
    forall j: nat, x: nat | j < |s.ino| ensures FileByte(u, j, x) == FileByte(s, j, x) {
      assert FileByte(t, j, x) == FileByte(s, j, x);
    }
    forall j: nat, k: nat | j < |s.ino| && k < SLOTS && Addr(s, j, k) != 0 ensures Addr(u, j, k) == Addr(s, j, k) {
      assert Addr(t, j, k) == Addr(s, j, k);
    }
    forall j: nat | j < |s.ino| && j != i ensures u.ino[j] == s.ino[j] {
      assert t.ino[j] == s.ino[j];
    }
    forall b | 0 <= b < |s.owner| && s.owner[b] != Free ensures u.owner[b] == s.owner[b] {
      assert t.owner[b] == s.owner[b];
    }
  }

  /** All that follows from putting a free, zeroed block into an empty slot. */
  lemma Gained(s: Snap, t: Snap, i: nat, k: nat, b: nat)
    requires Exact(s) && AddrSet(s, t, i, k, b) && i < |s.ino| && k < SLOTS && Addr(s, i, k) == 0 && s.ino[i].kind != 0
    requires 0 < b < |s.owner| && s.owner[b] == Free && t.owner == s.owner[b := Own(i, k)]
    requires t.bytes == s.bytes[b := ZeroBlock()] && |t.words| == |s.words| && Counted(t.bits, t.owner)
    requires t.ino[i] == s.ino[i].(addrs := t.ino[i].addrs)
    requires forall j: nat :: j < |s.ino| && j != i ==> t.ino[j] == s.ino[j]
    ensures Exact(t) && Grown(s, t, i)
  {
    AddrSetSized(s, t, i, k, b);
  }

  // ---------------------------------------------------------------- truncation

  ghost predicate InSlots(use: Use, i: nat, gone: set<nat>) {
    use.Own? && use.i == i && use.k in gone
  }

  /** The blocks in the slots gone of inode i are free; no other block has changed hands. */
  ghost predicate Freed(s: Snap, owner: seq<Use>, i: nat, gone: set<nat>) {
    && |owner| == |s.owner|
    && forall b {:trigger owner[b]} :: 0 <= b < |owner| ==>
      owner[b] == if InSlots(s.owner[b], i, gone) then Free else s.owner[b]
  }

  function Range(a: nat, b: nat): (r: set<nat>)
    ensures forall k :: k in r <==> a <= k < b
    decreases b
  {
    if a >= b then {} else Range(a, b - 1) + {b - 1}
  }

  lemma FreedNone(s: Snap, i: nat)
    ensures Freed(s, s.owner, i, Range(0, 0))
  {
  }

  lemma FreedMore(s: Snap, owner: seq<Use>, i: nat, gone: set<nat>, k: nat, owner': seq<Use>)
    requires Links(s) && Freed(s, owner, i, gone) && i < |s.ino|
    requires k < SLOTS && k !in gone && |s.owner| > 0 && s.owner[0] == Meta
    requires if Addr(s, i, k) == 0 then owner' == owner
      else Addr(s, i, k) < |owner| && owner' == owner[Addr(s, i, k) := Free]
    ensures Freed(s, owner', i, gone + {k})
  {
    var a := Addr(s, i, k);
    forall b | 0 <= b < |owner'| ensures owner'[b] == if InSlots(s.owner[b], i, gone + {k}) then Free else s.owner[b] {
      assert owner[b] == if InSlots(s.owner[b], i, gone) then Free else s.owner[b];
      if s.owner[b] == Own(i, k) {
        assert Addr(s, i, k) == b;
      }
    }
  }

  /** A block in a slot that is not gone yet is still in use. */
  lemma NotFreed(s: Snap, owner: seq<Use>, i: nat, gone: set<nat>, k: nat)
    requires Links(s) && Freed(s, owner, i, gone) && i < |s.ino| && k < SLOTS && k !in gone && Addr(s, i, k) != 0
    ensures Addr(s, i, k) < |owner| && owner[Addr(s, i, k)] == Own(i, k)
  {
  }

  /** i's blocks are free and i is empty; the rest is as before. */
  ghost predicate Truncated(s: Snap, t: Snap, i: nat) {
    && i < |s.ino| && t.ino == s.ino[i := s.ino[i].(addrs := ZeroAddrs(), size := 0)]
    && t.bytes == s.bytes && t.words == s.words && Freed(s, t.owner, i, Range(0, SLOTS))
  }

  lemma TruncatedAddrs(s: Snap, t: Snap, i: nat)
    requires Truncated(s, t, i)
    ensures forall j: nat, k: nat :: j < |s.ino| && k < SLOTS ==> Addr(t, j, k) == if j == i then 0 else Addr(s, j, k)
  {
  }

  /** Truncation keeps the bitmap exact, and the other files' bytes. */
  lemma TruncatedExact(s: Snap, t: Snap, i: nat)
    requires Exact(s) && Truncated(s, t, i) && Counted(t.bits, t.owner)
    ensures Exact(t)
    ensures forall j: nat, x: nat :: j < |s.ino| ==> FileByte(t, j, x) == if j == i then 0 else FileByte(s, j, x)
  {
    hide Range;
    TruncatedAddrs(s, t, i);
    forall b | 0 <= b < |t.owner| && t.owner[b].Own?
      ensures t.owner[b].i < |t.ino| && t.owner[b].k < SLOTS && Addr(t, t.owner[b].i, t.owner[b].k) == b
    {
      assert t.owner[b] == s.owner[b];
    }
    forall j: nat | j < |t.ino| ensures InodeSized(t, j) {
      assert InodeSized(s, j);
      forall bn: nat | bn * BSIZE < t.ino[j].size ensures Addr(t, j, Slot(bn)) != 0 {
        assert Addr(s, j, Slot(bn)) != 0;
      }
    }
    forall j: nat, x: nat | j < |s.ino| ensures FileByte(t, j, x) == (if j == i then 0 else FileByte(s, j, x)) {
      if x / BSIZE < MAXFILE {
        assert Addr(t, j, Slot(x / BSIZE)) == if j == i then 0 else Addr(s, j, Slot(x / BSIZE));
      }
    }
  }

  // ---------------------------------------------------------------- the operations

  /** SetBit as balloc's loop sees it: bit bi of the bitmap block that starts at b. */
  lemma BitIndex(b: nat, bi: nat)
    requires b % BPB == 0 && bi < BPB
    ensures (b + bi) / 8 == b / 8 + bi / 8 && (b + bi) % 8 == bi % 8 && b / 8 == b / BPB * BSIZE
  {
  }

  /** Every inode has the same kind on disk as in memory. */
  predicate SameKinds(ino: seq<Inode>, dino: seq<Inode>) {
    |ino| == |dino| && forall j :: 0 <= j < |ino| ==> ino[j].kind == dino[j].kind
  }

  /** What is on the disk, or will be when the operation in progress is committed. */
  datatype Disk = Disk(bits: seq<bv8>, bytes: seq<Block>, words: seq<Words>, dino: seq<Inode>)

  class Fs {
    const size: nat                    // sb.size
    const bmapstart: nat
    const inodestart: nat
    var bits: seq<bv8>
    var bytes: seq<Block>
    var words: seq<Words>
    var ino: seq<Inode>                // inodes as their holders see them
    var dino: seq<Inode>               // inodes on disk
    var logged: set<nat>               // blocks given to log_write in this operation

    ghost var owner: seq<Use>

    ghost function Now(): Snap
      reads this
    {
      Snap(bits, bytes, words, ino, owner)
    }

    ghost predicate Shape()
      reads this
    {
      |bytes| == |words| == |owner| == size && SameKinds(ino, dino)
    }

    ghost predicate Valid()
      reads this
    {
      Shape() && Exact(Now())
    }

    function BBlock(b: nat): nat {
      b / BPB + bmapstart
    }

    function IBlock(i: nat): nat {
      i / IPB + inodestart
    }

    ghost function OnDisk(): Disk
      reads this
    {
      Disk(bits, bytes, words, dino)
    }

    /** Every disk block in which d and e differ is in l: data, indirect, bitmap and inode blocks. */
    ghost predicate Logs(d: Disk, e: Disk, l: set<nat>) {
      && |e.bits| == |d.bits| && |e.bytes| == |d.bytes| && |e.words| == |d.words| && |e.dino| == |d.dino|
      && (forall c: nat {:trigger e.bits[c]} :: c < |d.bits| && e.bits[c] != d.bits[c] ==> BBlock(8 * c) in l)
      && (forall b: nat {:trigger e.bytes[b]} :: b < |d.bytes| && e.bytes[b] != d.bytes[b] ==> b in l)
      && (forall b: nat {:trigger e.words[b]} :: b < |d.words| && e.words[b] != d.words[b] ==> b in l)
      && (forall i: nat {:trigger e.dino[i]} :: i < |d.dino| && e.dino[i] != d.dino[i] ==> IBlock(i) in l)
    }

    lemma LogsMore(d: Disk, e: Disk, f: Disk, l: set<nat>, m: set<nat>)
      requires Logs(d, e, l) && Logs(e, f, m) && l <= m
      ensures Logs(d, f, m)
    {
    }

    lemma LogsNone(d: Disk, l: set<nat>)
      ensures Logs(d, d, l)
    {
    }

    /** Only the byte that holds block b's bit changes. */
    lemma BitLogs(d: Disk, e: Disk, b: nat, l: set<nat>)
      requires b < 8 * |d.bits| && e == d.(bits := e.bits)
      requires e.bits == SetBit(d.bits, b) || e.bits == ClearBit(d.bits, b)
      requires BBlock(b) in l
      ensures Logs(d, e, l)
    {
      hide With, Without;
      assert BBlock(8 * (b / 8)) == BBlock(b);
    }

    /** Block b is rewritten. */
    lemma BlockLogs(d: Disk, e: Disk, b: nat, l: set<nat>)
      requires b < |d.bytes| && b < |d.words| && b in l && |e.bytes| == |d.bytes| && |e.words| == |d.words|
      requires e == d.(bytes := d.bytes[b := e.bytes[b]], words := d.words[b := e.words[b]])
      ensures Logs(d, e, l)
    {
    }

    /** An empty file system of the given size, with datastart blocks of metadata, as mkfs would lay it out. */
    constructor Empty(size: nat, bmapstart: nat, inodestart: nat, datastart: nat, ninodes: nat)
      requires 0 < datastart <= size
      ensures Valid() && this.size == size && |ino| == ninodes && dino == ino && logged == {}
      ensures forall b :: 0 <= b < size ==> owner[b] == if b < datastart then Meta else Free
    {
      this.size, this.bmapstart, this.inodestart := size, bmapstart, inodestart;
      bits := seq(size / 8 + 1, i => 0);
      bytes := seq(size, i => ZeroBlock());
      words := seq(size, i => ZeroWords());
      ino := seq(ninodes, i => Inode(0, 0, 0, ZeroAddrs()));
      dino := seq(ninodes, i => Inode(0, 0, 0, ZeroAddrs()));
      logged := {};
      owner := seq(size, i => Free);
      new;
      for b := 0 to datastart
        invariant Shape() && Marked(bits, owner) && |ino| == ninodes && dino == ino && logged == {}
        invariant forall c :: 0 <= c < size ==> owner[c] == if c < b then Meta else Free
        invariant forall i :: 0 <= i < |ino| ==> ino[i] == Inode(0, 0, 0, ZeroAddrs())
      {
        MarkedTake(bits, owner, b, Meta);
        bits := SetBit(bits, b);
        owner := owner[b := Meta];
      }
      NoFiles(Now());
    }

    /** balloc: the first free block, zeroed, for the given use; 0 when there is none. */
    method BAlloc(ghost use: Use) returns (b: nat)
      requires Shape() && Counted(bits, owner) && use != Free
      modifies this`bits, this`bytes, this`words, this`logged, this`owner
      ensures Shape() && Counted(bits, owner)
      ensures b != 0 ==> b < size && old(owner)[b] == Free && owner == old(owner)[b := use]
      ensures b != 0 ==> bytes == old(bytes)[b := ZeroBlock()] && words == old(words)[b := ZeroWords()]
      ensures b != 0 ==> logged == old(logged) + {BBlock(b), b} && bits == SetBit(old(bits), b)
      ensures b == 0 ==> Now() == old(Now()) && logged == old(logged) && forall c :: 0 <= c < size ==> owner[c] != Free
      ensures forall c :: 0 <= c < b ==> old(owner)[c] != Free
      ensures Logs(old(OnDisk()), OnDisk(), logged)
    {
      hide On, With, SetBit, Logs;
      LogsNone(OnDisk(), logged);
      b := 0;
      while b < size
        invariant b % BPB == 0 && Now() == old(Now()) && logged == old(logged)
        invariant forall c :: 0 <= c < b && c < size ==> owner[c] != Free
      {
        var bi := 0;
        while bi < BPB && b + bi < size
          invariant bi <= BPB && Now() == old(Now()) && logged == old(logged)
          invariant forall c :: 0 <= c < b + bi && c < size ==> owner[c] != Free
        {
          BitIndex(b, bi);
          assert owner[b + bi] != Free <==> Bit(bits, b + bi);
          if !On(bits[b / 8 + bi / 8], bi % 8) {
            Claim(b, bi, use);
            return b + bi;
          }
          bi := bi + 1;
        }
        b := b + BPB;
      }
      b := 0;
    }

    /** Marks bit bi of the bitmap block for b, and zeroes the block it stands for. */
    method Claim(b: nat, bi: nat, ghost use: Use)
      requires Shape() && Counted(bits, owner) && use != Free && b % BPB == 0
      requires bi < BPB && b + bi < size && owner[b + bi] == Free
      modifies this`bits, this`bytes, this`words, this`logged, this`owner
      ensures Shape() && Counted(bits, owner) && owner == old(owner)[b + bi := use] && bits == SetBit(old(bits), b + bi)
      ensures bytes == old(bytes)[b + bi := ZeroBlock()] && words == old(words)[b + bi := ZeroWords()]
      ensures logged == old(logged) + {BBlock(b + bi), b + bi} && Logs(old(OnDisk()), OnDisk(), logged)
    {
      hide On, With, Logs;
      ghost var d := OnDisk();
      BitIndex(b, bi);
      MarkedTake(bits, owner, b + bi, use);
      bits := bits[b / 8 + bi / 8 := With(bits[b / 8 + bi / 8], bi % 8)];
      logged := logged + {BBlock(b)};
      owner := owner[b + bi := use];
      ghost var e := OnDisk();
      BitLogs(d, e, b + bi, logged);
      BZero(b + bi);
      BlockLogs(e, OnDisk(), b + bi, logged);
      LogsMore(d, e, OnDisk(), old(logged) + {BBlock(b + bi)}, logged);
    }

    /** bzero */
    method BZero(b: nat)
      requires Shape() && b < size
      modifies this`bytes, this`words, this`logged
      ensures Shape() && bytes == old(bytes)[b := ZeroBlock()] && words == old(words)[b := ZeroWords()]
      ensures logged == old(logged) + {b}
    {
      bytes := bytes[b := ZeroBlock()];
      words := words[b := ZeroWords()];
      logged := logged + {b};
    }

    /** bfree; a block that is in use is what its panic demands. */
    method BFree(b: nat)
      requires Shape() && Counted(bits, owner) && 0 < b < size && owner[b] != Free
      modifies this`bits, this`logged, this`owner
      ensures Shape() && Counted(bits, owner) && owner == old(owner)[b := Free] && bits == ClearBit(old(bits), b)
      ensures logged == old(logged) + {BBlock(b)} && Logs(old(OnDisk()), OnDisk(), logged)
    {
      hide On, Without, Logs;
      var bi := b % BPB;
      BitIndex(b - bi, bi);
      assert Bit(bits, b);
      CountedGive(bits, owner, b);
      bits := bits[b / 8 := Without(bits[b / 8], bi % 8)];
      logged := logged + {BBlock(b)};
      owner := owner[b := Free];
      BitLogs(old(OnDisk()), OnDisk(), b, logged);
    }

    /** addr = balloc(ip->dev); ip->addrs[k] = addr */
    method AllocAddr(i: nat, k: nat) returns (b: nat)
      requires Valid() && i < |ino| && ino[i].kind != 0 && k <= NDIRECT && ino[i].addrs[k] == 0
      modifies this`bits, this`bytes, this`words, this`logged, this`owner, this`ino
      ensures Valid() && Grown(old(Now()), Now(), i)
      ensures b != 0 ==> b < size && AddrSet(old(Now()), Now(), i, k, b) && logged == old(logged) + {BBlock(b), b}
      ensures b == 0 ==> Now() == old(Now()) && logged == old(logged) && forall c :: 0 <= c < size ==> owner[c] != Free
      ensures Logs(old(OnDisk()), OnDisk(), logged)
    {
      hide Counted, Links, Sized, Grown, SetBit, Logs;
      ghost var s := Now();
      GrownSelf(s, i);
      b := BAlloc(Own(i, k));
      if b != 0 {
        ino := ino[i := WithAddr(ino[i], k, b)];
        StoreAddr(s, Now(), i, k, b);
        Gained(s, Now(), i, k, b);
      }
    }

    /** addr = balloc(ip->dev); a[k] = addr, in the indirect block */
    method AllocWord(i: nat, k: nat, ind: nat) returns (b: nat)
      requires Valid() && i < |ino| && ino[i].kind != 0 && k < NINDIRECT
      requires ind == ino[i].addrs[NDIRECT] && 0 < ind < size
      requires words[ind][k] == 0
      modifies this`bits, this`bytes, this`words, this`logged, this`owner
      ensures Valid() && Grown(old(Now()), Now(), i)
      ensures b != 0 ==>
        b < size && AddrSet(old(Now()), Now(), i, NDIRECT + 1 + k, b) && logged == old(logged) + {BBlock(b), b, ind}
      ensures b == 0 ==> Now() == old(Now()) && logged == old(logged) && forall c :: 0 <= c < size ==> owner[c] != Free
      ensures Logs(old(OnDisk()), OnDisk(), logged)
    {
      hide Counted, Links, Sized, Grown, SetBit, Logs;
      ghost var s := Now();
      GrownSelf(s, i);
      b := BAlloc(Own(i, NDIRECT + 1 + k));
      if b != 0 {
        OwnedBlock(s, i, NDIRECT);
        ghost var d, l := OnDisk(), logged;
        var w: Words := words[ind][k := b];
        words := words[ind := w];
        logged := logged + {ind};
        assert bytes[ind := bytes[ind]] == bytes;
        BlockLogs(d, OnDisk(), ind, logged);
        LogsMore(old(OnDisk()), d, OnDisk(), l, logged);
        StoreWord(s, Now(), i, k, b, w);
        Gained(s, Now(), i, NDIRECT + 1 + k, b);
      }
    }

    /**
     bmap. What it may log: for a new block, it and its bitmap block; the indirect block; and
     the bitmap block of an indirect block that is new.
     */
    method BMap(i: nat, bn: nat) returns (addr: nat)
      requires Valid() && i < |ino| && ino[i].kind != 0 && bn < MAXFILE
      modifies this`bits, this`bytes, this`words, this`logged, this`owner, this`ino
      ensures Valid() && Grown(old(Now()), Now(), i)
      ensures addr == Addr(Now(), i, Slot(bn))
      ensures addr == 0 ==> forall c :: 0 <= c < size ==> owner[c] != Free
      ensures Addr(old(Now()), i, Slot(bn)) != 0 ==> Now() == old(Now()) && logged == old(logged)
      ensures forall k: nat :: k < SLOTS && k != Slot(bn) && k != NDIRECT ==>
        Addr(Now(), i, k) == Addr(old(Now()), i, k)
      ensures var n, n' := Addr(old(Now()), i, NDIRECT), Addr(Now(), i, NDIRECT);
        logged <= old(logged) + {addr, BBlock(addr)} + (if n' == 0 then {} else {n'})
                  + (if n' == n then {} else {BBlock(n')})
      ensures Logs(old(OnDisk()), OnDisk(), logged) && old(logged) <= logged
    {
      hide Counted, Links, Sized, Grown, Logs;
      ghost var s := Now();
      GrownSelf(s, i);
      LogsNone(OnDisk(), logged);
      if bn < NDIRECT {
        addr := ino[i].addrs[bn];
        if addr == 0 {
          addr := AllocAddr(i, bn);
        }
        return;
      }
      var k := bn - NDIRECT;
      var ind := ino[i].addrs[NDIRECT];
      if ind == 0 {
        ind := AllocAddr(i, NDIRECT);
        if ind == 0 {
          return 0;
        }
        GrownInode(s, Now(), i);
      }
      ghost var t, d, l := Now(), OnDisk(), logged;
      OwnedBlock(t, i, NDIRECT);
      addr := words[ind][k];
      if addr == 0 {
        addr := AllocWord(i, k, ind);
        GrownMore(s, t, Now(), i);
        LogsMore(old(OnDisk()), d, OnDisk(), l, logged);
      }
    }

    /** iupdate */
    method IUpdate(i: nat)
      requires |bytes| == |words| == |owner| == size && Exact(Now())
      requires i < |ino| == |dino| && SameKinds(ino, dino[i := ino[i]])
      modifies this`dino, this`logged
      ensures Valid() && dino == old(dino)[i := ino[i]] && logged == old(logged) + {IBlock(i)}
      ensures Logs(old(OnDisk()), OnDisk(), logged)
    {
      dino := dino[i := ino[i]];
      logged := logged + {IBlock(i)};
    }

    /** itrunc: no block is freed twice, so the panic in bfree is not reached. */
    method ITrunc(i: nat)
      requires Valid() && i < |ino|
      modifies this`bits, this`logged, this`owner, this`ino, this`dino
      ensures Valid() && Truncated(old(Now()), Now(), i) && dino == old(dino)[i := ino[i]]
      ensures Logs(old(OnDisk()), OnDisk(), logged) && old(logged) <= logged
    {
      hide Counted, Links, Sized, Freed, Range, ZeroAddrs, Logs;
      ghost var s := Now();
      CountedMeta(bits, owner);
      ghost var gone := TruncDirect(i);
      if ino[i].addrs[NDIRECT] != 0 {
        ghost var d, l := OnDisk(), logged;
        gone := TruncIndirect(i, s, gone);
        LogsMore(old(OnDisk()), d, OnDisk(), l, logged);
      } else {
        gone := NoIndirect(s, owner, i, gone);
      }
      FreedAll(s, owner, i, gone);
      assert ino[i].addrs == ZeroAddrs() by { AllZero(ino[i].addrs); }
      ino := ino[i := ino[i].(size := 0)];
      TruncatedExact(s, Now(), i);
      ghost var d, l := OnDisk(), logged;
      IUpdate(i);
      LogsMore(old(OnDisk()), d, OnDisk(), l, logged);
    }

    /** iput's freeing branch: itrunc, type 0, iupdate. */
    method FreeInode(i: nat)
      requires Valid() && i < |ino|
      modifies this`bits, this`logged, this`owner, this`ino, this`dino
      ensures Valid() && Freed(old(Now()), owner, i, Range(0, SLOTS)) && bytes == old(bytes) && words == old(words)
      ensures ino == old(ino)[i := Inode(0, old(ino)[i].nlink, 0, ZeroAddrs())] && dino == old(dino)[i := ino[i]]
      ensures Logs(old(OnDisk()), OnDisk(), logged) && old(logged) <= logged
    {
      hide Counted, Links, Sized, Freed, Range, Logs;
      ITrunc(i);
      ghost var t, d, l := Now(), OnDisk(), logged;
      ino := ino[i := ino[i].(kind := 0)];
      Relabelled(t, Now(), i);
      IUpdate(i);
      LogsMore(old(OnDisk()), d, OnDisk(), l, logged);
    }

    /** ialloc: the first inode that is free on disk becomes an empty one of the given kind. */
    method IAlloc(kind: int) returns (inum: nat)
      requires Valid() && kind != 0
      modifies this`ino, this`dino, this`logged
      ensures Valid() && inum <= |dino| == |old(dino)| == |old(ino)|
      ensures forall j :: 1 <= j < inum && j < |dino| ==> old(dino)[j].kind != 0
      ensures inum != 0 ==> inum < |dino| && old(dino)[inum].kind == 0
      ensures inum != 0 ==>
        dino == old(dino)[inum := Inode(kind, 0, 0, ZeroAddrs())] && ino == old(ino)[inum := dino[inum]]
      ensures inum == 0 ==> dino == old(dino) && ino == old(ino) && forall j :: 1 <= j < |dino| ==> dino[j].kind != 0
      ensures logged == if inum == 0 then old(logged) else old(logged) + {IBlock(inum)}
      ensures Logs(old(OnDisk()), OnDisk(), logged)
    {
      hide Counted, Links, ZeroAddrs;
      inum := 1;
      while inum < |dino|
        invariant 1 <= inum && Valid() && dino == old(dino) && ino == old(ino) && logged == old(logged)
        invariant forall j :: 1 <= j < inum && j < |dino| ==> dino[j].kind != 0
      {
        if dino[inum].kind == 0 {
          assert InodeSized(Now(), inum);
          ghost var t := Now();
          dino := dino[inum := Inode(kind, 0, 0, ZeroAddrs())];
          ino := ino[inum := dino[inum]];
          Relabelled(t, Now(), inum);
          logged := logged + {IBlock(inum)};
          return;
        }
        inum := inum + 1;
      }
      inum := 0;
    }

    /** bfree, after changes since d that are all logged. */
    method FreeLogged(b: nat, ghost d: Disk)
      requires Shape() && Counted(bits, owner) && 0 < b < size && owner[b] != Free && Logs(d, OnDisk(), logged)
      modifies this`bits, this`logged, this`owner
      ensures Shape() && Counted(bits, owner) && owner == old(owner)[b := Free] && old(logged) <= logged
      ensures Logs(d, OnDisk(), logged)
    {
      hide Counted, Logs;
      ghost var e, l := OnDisk(), logged;
      BFree(b);
      LogsMore(d, e, OnDisk(), l, logged);
    }

    /** The loop over the direct blocks. */
    method TruncDirect(i: nat) returns (ghost gone: set<nat>)
      requires Valid() && i < |ino|
      modifies this`bits, this`logged, this`owner, this`ino
      ensures Shape() && Counted(bits, owner) && Freed(old(Now()), owner, i, gone) && gone == Range(0, NDIRECT)
      ensures |ino| == |old(ino)| && ino == old(ino)[i := old(ino)[i].(addrs := ino[i].addrs)]
      ensures ino[i].addrs[NDIRECT] == old(ino)[i].addrs[NDIRECT]
      ensures forall j :: 0 <= j < NDIRECT ==> ino[i].addrs[j] == 0
      ensures Logs(old(OnDisk()), OnDisk(), logged) && old(logged) <= logged
    {
      hide Counted, Links, Sized, Freed, Range, Logs;
      ghost var s := Now();
      LogsNone(OnDisk(), logged);
      CountedMeta(bits, owner);
      FreedNone(s, i);
      gone := Range(0, 0);
      assert ino[i := ino[i].(addrs := ino[i].addrs)] == ino;
      for k := 0 to NDIRECT
        invariant Shape() && Counted(bits, owner) && Freed(s, owner, i, gone) && gone == Range(0, k)
        invariant |ino| == |s.ino| && ino == s.ino[i := s.ino[i].(addrs := ino[i].addrs)]
        invariant forall j :: 0 <= j < k ==> ino[i].addrs[j] == 0
        invariant forall j :: k <= j <= NDIRECT ==> ino[i].addrs[j] == s.ino[i].addrs[j]
        invariant Logs(old(OnDisk()), OnDisk(), logged) && old(logged) <= logged
      {
        ghost var was := owner;
        if ino[i].addrs[k] != 0 {
          NotFreed(s, owner, i, gone, k);
          FreeLogged(ino[i].addrs[k], old(OnDisk()));
          ino := ino[i := WithAddr(ino[i], k, 0)];
        }
        FreedMore(s, was, i, gone, k, owner);
        gone := gone + {k};
        assert gone == Range(0, k + 1);
      }
    }

    /** The indirect block's loop, and the indirect block itself. */
    method TruncIndirect(i: nat, ghost s: Snap, ghost before: set<nat>) returns (ghost gone: set<nat>)
      requires Shape() && Counted(bits, owner) && Links(s) && Freed(s, owner, i, before) && before == Range(0, NDIRECT)
      requires i < |s.ino| && |ino| == |s.ino| && ino[i].addrs[NDIRECT] == s.ino[i].addrs[NDIRECT] != 0
      requires words == s.words && |s.owner| > 0 && s.owner[0] == Meta
      modifies this`bits, this`logged, this`owner, this`ino
      ensures Shape() && Counted(bits, owner) && Freed(s, owner, i, gone)
      ensures gone == Range(0, NDIRECT) + Range(NDIRECT + 1, SLOTS) + {NDIRECT}
      ensures |ino| == |old(ino)| && ino == old(ino)[i := WithAddr(old(ino)[i], NDIRECT, 0)]
      ensures Logs(old(OnDisk()), OnDisk(), logged) && old(logged) <= logged
    {
      hide Counted, Links, Sized, Freed, Range, Logs;
      LogsNone(OnDisk(), logged);
      var ind := ino[i].addrs[NDIRECT];
      gone := before;
      assert Range(NDIRECT + 1, NDIRECT + 1) == {};
      NotFreed(s, owner, i, gone, NDIRECT);
      var a := words[ind];
      for j := 0 to NINDIRECT
        invariant Shape() && Counted(bits, owner) && Freed(s, owner, i, gone)
        invariant gone == before + Range(NDIRECT + 1, NDIRECT + 1 + j)
        invariant ino == old(ino) && Logs(old(OnDisk()), OnDisk(), logged) && old(logged) <= logged
      {
        ghost var was, k := owner, NDIRECT + 1 + j;
        if a[j] != 0 {
          NotFreed(s, owner, i, gone, k);
          FreeLogged(a[j], old(OnDisk()));
        }
        FreedMore(s, was, i, gone, k, owner);
        gone := gone + {k};
        assert Range(NDIRECT + 1, k + 1) == Range(NDIRECT + 1, k) + {k};
      }
      ghost var was := owner;
      NotFreed(s, owner, i, gone, NDIRECT);
      FreeLogged(ind, old(OnDisk()));
      FreedMore(s, was, i, gone, NDIRECT, owner);
      gone := gone + {NDIRECT};
      ino := ino[i := WithAddr(ino[i], NDIRECT, 0)];
    }
  }

  lemma NoFiles(s: Snap)
    requires Marked(s.bits, s.owner) && |s.bytes| == |s.words| == |s.owner| > 0 && s.owner[0] == Meta
    requires forall b :: 0 <= b < |s.owner| ==> !s.owner[b].Own?
    requires forall i :: 0 <= i < |s.ino| ==> s.ino[i] == Inode(0, 0, 0, ZeroAddrs())
    ensures Exact(s)
  {
    forall i: nat, k: nat | i < |s.ino| && k < SLOTS ensures Addr(s, i, k) == 0 {
      assert s.ino[i] == Inode(0, 0, 0, ZeroAddrs());
    }
    forall i: nat | i < |s.ino| ensures InodeSized(s, i) {
      assert s.ino[i] == Inode(0, 0, 0, ZeroAddrs());
    }
  }

  lemma CountedMeta(bits: seq<bv8>, owner: seq<Use>)
    requires Counted(bits, owner)
    ensures |owner| > 0 && owner[0] == Meta
  {
  }

  /** The kind and size of an inode without blocks can be changed freely, the size to zero. */
  lemma Relabelled(s: Snap, t: Snap, i: nat)
    requires Exact(s) && i < |s.ino| && s.ino[i].addrs == ZeroAddrs()
    requires |t.ino| == |s.ino| && t == s.(ino := s.ino[i := t.ino[i]])
    requires t.ino[i].addrs == ZeroAddrs() && t.ino[i].size == 0
    ensures Exact(t)
  {
    forall j: nat, k: nat | j < |s.ino| && k < SLOTS ensures Addr(t, j, k) == Addr(s, j, k) {
    }
    forall j: nat | j < |t.ino| ensures InodeSized(t, j) {
      assert InodeSized(s, j);
      forall bn: nat | bn * BSIZE < t.ino[j].size ensures Addr(t, j, Slot(bn)) != 0 {
        assert Addr(s, j, Slot(bn)) != 0;
      }
    }
  }

  lemma AllZero(a: Addrs)
    requires forall k :: 0 <= k < 13 ==> a[k] == 0
    ensures a == ZeroAddrs()
  {
  }

  /** Without an indirect block the other slots have nothing to free. */
  lemma NoIndirect(s: Snap, owner: seq<Use>, i: nat, before: set<nat>) returns (gone: set<nat>)
    requires Links(s) && Freed(s, owner, i, before) && before == Range(0, NDIRECT)
    requires i < |s.ino| && |s.owner| > 0 && s.owner[0] == Meta
    requires s.ino[i].addrs[NDIRECT] == 0
    ensures Freed(s, owner, i, gone) && gone == Range(0, NDIRECT) + Range(NDIRECT + 1, SLOTS) + {NDIRECT}
  {
    hide Range;
    gone := Range(0, NDIRECT) + Range(NDIRECT + 1, SLOTS) + {NDIRECT};
    assert gone == before + Range(NDIRECT, SLOTS);
  }

  lemma FreedAll(s: Snap, owner: seq<Use>, i: nat, gone: set<nat>)
    requires Freed(s, owner, i, gone) && gone == Range(0, NDIRECT) + Range(NDIRECT + 1, SLOTS) + {NDIRECT}
    ensures Freed(s, owner, i, Range(0, SLOTS))
  {
    hide Range;
    assert gone == Range(0, SLOTS);
  }

  lemma GrownInode(s: Snap, t: Snap, i: nat)
    requires Grown(s, t, i)
    ensures |t.ino| == |s.ino| && t.ino[i] == s.ino[i].(addrs := t.ino[i].addrs)
  {
  }

  lemma OwnedBlock(s: Snap, i: nat, k: nat)
    requires Links(s) && i < |s.ino| && k < SLOTS && Addr(s, i, k) != 0
    ensures Addr(s, i, k) < |s.owner| && s.owner[Addr(s, i, k)] == Own(i, k)
  {
  }
}
