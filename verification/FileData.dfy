/**
 readi and writei of kernel/fs.c over files as sequences of bytes, and filewrite of
 kernel/file.c with the bound on what one of its transactions logs.

 `fault` is how many bytes of the caller's buffer can be copied: a copy that reaches beyond
 them fails, after those before.
 */
module FileData {
  import opened FileBlocks
  import Log

  const UINT: nat := 0x1_0000_0000       // offsets and counts are 32-bit, and wrap

  /** The file as a sequence of bytes. */
  function Contents(s: Snap, i: nat): (c: seq<int>)
    requires i < |s.ino|
    ensures |c| == s.ino[i].size
  {
    seq(s.ino[i].size, x requires x >= 0 => FileByte(s, i, x))
  }

  /** c with its bytes from off on replaced by d, longer if need be. */
  function Splice(c: seq<int>, off: nat, d: seq<int>): seq<int>
    requires off <= |c|
  {
    c[..off] + d + if off + |d| < |c| then c[off + |d|..] else []
  }

  // ---------------------------------------------------------------- putting bytes

  /** The bytes d stand at off in file i; every other byte of every file is as before. */
  ghost predicate Replaced(s: Snap, t: Snap, i: nat, off: nat, d: seq<int>) {
    && |t.ino| == |s.ino|
    && forall j: nat, x: nat {:trigger FileByte(t, j, x)} :: j < |s.ino| ==>
         FileByte(t, j, x) == if j == i && off <= x < off + |d| then d[x - off] else FileByte(s, j, x)
  }

  /** Replaced, with all blocks where they were and no inode but for i's new blocks changed. */
  ghost predicate Put(s: Snap, t: Snap, i: nat, off: nat, d: seq<int>) {
    && i < |s.ino| && Replaced(s, t, i, off, d)
    && (forall j: nat {:trigger t.ino[j]} :: j < |s.ino| && j != i ==> t.ino[j] == s.ino[j])
    && t.ino[i] == s.ino[i].(addrs := t.ino[i].addrs)
    && (forall k: nat {:trigger Addr(t, i, k)} :: k < SLOTS && Addr(s, i, k) != 0 ==> Addr(t, i, k) == Addr(s, i, k))
  }

  lemma PutMore(s: Snap, t: Snap, u: Snap, i: nat, off: nat, d: seq<int>, e: seq<int>)
    requires Put(s, t, i, off, d) && Put(t, u, i, off + |d|, e)
    ensures Put(s, u, i, off, d + e)
  {
    forall j: nat, x: nat | j < |s.ino|
      ensures FileByte(u, j, x) == if j == i && off <= x < off + |d + e| then (d + e)[x - off] else FileByte(s, j, x)
    {
      assert FileByte(t, j, x) == if j == i && off <= x < off + |d| then d[x - off] else FileByte(s, j, x);
    }
    forall j: nat | j < |s.ino| && j != i ensures u.ino[j] == s.ino[j] {
      assert t.ino[j] == s.ino[j];
    }
    forall k: nat | k < SLOTS && Addr(s, i, k) != 0 ensures Addr(u, i, k) == Addr(s, i, k) {
      assert Addr(t, i, k) == Addr(s, i, k);
    }
  }

  lemma PutNothing(s: Snap, t: Snap, i: nat, off: nat)
    requires Grown(s, t, i)
    ensures Put(s, t, i, off, [])
  {
  }

  function Patch(b: Block, o: nat, c: seq<int>): (r: Block)
    requires o + |c| <= BSIZE
    ensures forall x :: 0 <= x < BSIZE ==> r[x] == if o <= x < o + |c| then c[x - o] else b[x]
  {
    b[..o] + c + b[o + |c|..]
  }

  /** Writing into the block of one slot changes those bytes of that file only. */
  lemma Poke(s: Snap, t: Snap, i: nat, bn: nat, o: nat, c: seq<int>)
    requires Exact(s) && i < |s.ino| && bn < MAXFILE && o + |c| <= BSIZE
    requires var a := Addr(s, i, Slot(bn)); 0 < a < |s.bytes| && t == s.(bytes := s.bytes[a := Patch(s.bytes[a], o, c)])
    ensures Exact(t) && Put(s, t, i, bn * BSIZE + o, c)
  {
    hide Counted;
    var a := Addr(s, i, Slot(bn));
    forall j: nat, k: nat | j < |s.ino| && k < SLOTS ensures Addr(t, j, k) == Addr(s, j, k) {
    }
    forall j: nat | j < |t.ino| ensures InodeSized(t, j) {
      assert InodeSized(s, j);
    }
    forall j: nat, x: nat | j < |s.ino|
      ensures FileByte(t, j, x) == if j == i && bn * BSIZE + o <= x < bn * BSIZE + o + |c| then c[x - (bn * BSIZE + o)]
        else FileByte(s, j, x)
    {
      if x / BSIZE < MAXFILE {
        var k := Slot(x / BSIZE);
        assert Addr(t, j, k) == Addr(s, j, k);
        assert Addr(s, j, k) == a ==> Own(j, k) == Own(i, Slot(bn));
      }
    }
  }

  // ---------------------------------------------------------------- counting what is logged

  /** The blocks logged, without the indirect block n if there is one. */
  function Cut(logged: set<nat>, n: nat): set<nat> {
    if n == 0 then logged else logged - {n}
  }

  lemma {:induction false} AtMost(a: set<nat>, b: set<nat>)
    requires a <= b
    ensures |a| <= |b|
    decreases |a|
  {
    if a != {} {
      var x :| x in a;
      AtMost(a - {x}, b - {x});
    }
  }

  /**
   One block: itself if it was there, its bitmap block too if it is new, and once the bitmap
   block of a new indirect block.
   */
  lemma CutStep(a: set<nat>, b: set<nat>, n: nat, n': nat, addr: nat, bb: nat, bi: nat, isNew: bool)
    requires n == n' || n == 0
    requires b <= a + {addr} + (if isNew then {bb} else {}) + (if n' == 0 then {} else {n'})
                  + (if n' == n then {} else {bi})
    ensures |Cut(b, n')| <= |Cut(a, n)| + 1 + (if isNew then 1 else 0) + (if n' == n then 0 else 1)
  {
    var more := {addr} + (if isNew then {bb} else {}) + (if n' == n then {} else {bi});
    var few: set<nat> := if isNew then {bb} else {};
    var none: set<nat> := if n' == n then {} else {bi};
    assert |{addr} + few| <= 1 + |few|;
    assert |more| <= 1 + |few| + |none|;
    AtMost(Cut(b, n'), Cut(a, n) + more);
  }

  /** How many blocks hold a byte of off..off+n. */
  function Span(off: nat, n: nat): nat {
    if n == 0 then 0 else (off + n - 1) / BSIZE - off / BSIZE + 1
  }

  /** What a write of n bytes at off may log besides the inode, the indirect block and its bitmap block. */
  function Allow(off: nat, n: nat): int {
    2 * Span(off, n) - if off % BSIZE != 0 && n > 0 then 1 else 0
  }

  lemma AllowMore(off: nat, tot: nat, m: nat, n: nat)
    requires m > 0 && tot + m <= n && (off + tot) % BSIZE + m <= BSIZE && (tot == 0 || (off + tot) % BSIZE == 0)
    ensures Allow(off, tot) + (if tot == 0 && off % BSIZE != 0 then 1 else 2) == Allow(off, tot + m) <= Allow(off, n)
  {
  }

  /** A chunk of filewrite fits the log, whatever its offset. */
  lemma AllowChunk(off: nat, n: nat)
    requires n <= 3 * BSIZE
    ensures Allow(off, n) + 2 < Log.MAXOPBLOCKS
  {
  }

  // ---------------------------------------------------------------- writei

  /** Every block with a byte below end is there. */
  ghost predicate Covered(s: Snap, i: nat, end: nat) {
    && i < |s.ino| && end <= MAXFILE * BSIZE
    && forall bn: nat {:trigger Slot(bn)} :: bn * BSIZE < end ==> Addr(s, i, Slot(bn)) != 0
  }

  lemma CoveredMore(s: Snap, t: Snap, i: nat, end: nat, m: nat, off: nat, d: seq<int>)
    requires Covered(s, i, end) && Put(s, t, i, off, d) && end % BSIZE + m <= BSIZE && end + m <= MAXFILE * BSIZE
    requires m > 0 ==> Addr(t, i, Slot(end / BSIZE)) != 0
    ensures Covered(t, i, end + m)
  {
    forall bn: nat | bn * BSIZE < end + m ensures Addr(t, i, Slot(bn)) != 0 {
      if bn * BSIZE < end {
        assert Addr(s, i, Slot(bn)) != 0;
      } else {
        assert bn == end / BSIZE;
      }
    }
  }

  /** One turn of writei's loop: bmap, copy in, log_write. The copy delivers got bytes; it fails if that is not all. */
  method WriteChunk(fs: Fs, i: nat, off: nat, chunk: seq<int>, got: nat) returns (ok: bool)
    requires fs.Valid() && i < |fs.ino| && fs.ino[i].kind != 0
    requires off / BSIZE < MAXFILE && 0 < |chunk| <= BSIZE - off % BSIZE
    requires got <= |chunk|
    modifies fs
    ensures fs.Valid() && fs.dino == old(fs.dino)
    ensures var there := Addr(fs.Now(), i, Slot(off / BSIZE)) != 0;
      && Put(old(fs.Now()), fs.Now(), i, off, if there then chunk[..got] else [])
      && (ok <==> there && got == |chunk|) && (there || forall c :: 0 <= c < fs.size ==> fs.owner[c] != Free)
    ensures var n, n' := Addr(old(fs.Now()), i, NDIRECT), Addr(fs.Now(), i, NDIRECT);
      && (n == n' || n == 0)
      && |Cut(fs.logged, n')| <= |Cut(old(fs.logged), n)| + 1
           + (if Addr(old(fs.Now()), i, Slot(off / BSIZE)) == 0 then 1 else 0) + (if n' == n then 0 else 1)
    ensures old(fs.logged) <= fs.logged
    ensures fs.Logs(old(fs.OnDisk()), fs.OnDisk(), fs.logged + Lost(fs.Now(), i, off, 0, if ok then 0 else got))
  {
    hide Counted, Links, Sized, Grown, Put, Cut, Fs.Logs, Patch, FileByte, Replaced, AddrSet;
    ghost var s, was := fs.Now(), fs.logged;
    var addr := fs.BMap(i, off / BSIZE);
    ghost var d, l := fs.OnDisk(), fs.logged;
    LogsWider(fs, old(fs.OnDisk()), d, l, l + Lost(fs.Now(), i, off, 0, got));
    ghost var t := fs.Now();
    PutNothing(s, t, i, off);
    ghost var n, n' := Addr(s, i, NDIRECT), Addr(t, i, NDIRECT);
    CutStep(was, fs.logged + {addr}, n, n', addr, fs.BBlock(addr), fs.BBlock(n'), Addr(s, i, Slot(off / BSIZE)) == 0);
    CutLess(fs.logged, fs.logged + {addr}, n');
    if addr == 0 {
      return false;
    }
    OwnedBlock(t, i, Slot(off / BSIZE));
    fs.bytes := fs.bytes[addr := Patch(fs.bytes[addr], off % BSIZE, chunk[..got])];
    Poke(t, fs.Now(), i, off / BSIZE, off % BSIZE, chunk[..got]);
    PutMore(s, t, fs.Now(), i, off, [], chunk[..got]);
    assert [] + chunk[..got] == chunk[..got];
    ok := got == |chunk|;
    if ok {
      fs.logged := fs.logged + {addr};
    }
    PatchLogs(fs, d, fs.OnDisk(), addr, off % BSIZE, chunk[..got], if got == 0 then l else l + {addr});
    fs.LogsMore(old(fs.OnDisk()), d, fs.OnDisk(), l, if got == 0 then l else l + {addr});
    LogsWider(fs, old(fs.OnDisk()), fs.OnDisk(), if got == 0 then l else l + {addr},
              fs.logged + Lost(fs.Now(), i, off, 0, if ok then 0 else got));
  }

  lemma LogsWider(fs: Fs, d: Disk, e: Disk, l: set<nat>, m: set<nat>)
    requires fs.Logs(d, e, l) && l <= m
    ensures fs.Logs(d, e, m)
  {
  }

  lemma PatchLogs(fs: Fs, d: Disk, e: Disk, addr: nat, o: nat, c: seq<int>, l: set<nat>)
    requires addr < |d.bytes| && o + |c| <= BSIZE && e == d.(bytes := d.bytes[addr := Patch(d.bytes[addr], o, c)])
    requires c != [] ==> addr in l
    ensures fs.Logs(d, e, l)
  {
    if c == [] {
      assert Patch(d.bytes[addr], o, c) == d.bytes[addr];
    }
  }

  /** The block that a copy which failed after reaching byte done has changed, past the tot bytes in finished blocks. */
  ghost function Lost(t: Snap, i: nat, off: nat, tot: nat, done: nat): set<nat> {
    if done <= tot || i >= |t.ino| || (off + tot) / BSIZE >= MAXFILE then {}
    else
      var b := Addr(t, i, Slot((off + tot) / BSIZE));
      if b == 0 then {} else {b}
  }

  lemma CutLess(a: set<nat>, b: set<nat>, n: nat)
    requires a <= b
    ensures |Cut(a, n)| <= |Cut(b, n)|
  {
    AtMost(Cut(a, n), Cut(b, n));
  }

  /**
   The first done bytes of src are in place, tot of them in blocks that are finished, at no
   more than the cost allowed for n bytes.
   */
  ghost predicate Progress(s: Snap, was: set<nat>, t: Snap, logged: set<nat>, i: nat, off: nat, src: seq<int>, tot: nat,
                           done: nat, n: nat)
  {
    && tot <= done <= |src| && i < |s.ino| && off + |src| <= MAXFILE * BSIZE
    && Put(s, t, i, off, src[..done]) && Covered(t, i, off + tot) && PutInode(s, t, i)
    && var n0, n' := Addr(s, i, NDIRECT), Addr(t, i, NDIRECT);
       (n0 == n' || n0 == 0) && |Cut(logged, n')| <= |Cut(was, n0)| + Allow(off, n) + (if n' == n0 then 0 else 1)
  }

  lemma ProgressMore(s: Snap, was: set<nat>, t: Snap, logged: set<nat>, u: Snap, logged': set<nat>, i: nat, off: nat,
                     src: seq<int>, tot: nat, m: nat, got: nat)
    requires Progress(s, was, t, logged, i, off, src, tot, tot, tot) && tot + m <= |src| && got <= m
    requires m > 0 && (off + tot) % BSIZE + m <= BSIZE && (tot == 0 || (off + tot) % BSIZE == 0)
    requires i < |u.ino| && (off + tot) / BSIZE < MAXFILE
    requires Put(t, u, i, off + tot,
                 if Addr(u, i, Slot((off + tot) / BSIZE)) != 0 then src[tot..tot + m][..got] else [])
    requires var n, n' := Addr(t, i, NDIRECT), Addr(u, i, NDIRECT);
      && (n == n' || n == 0)
      && |Cut(logged', n')| <= |Cut(logged, n)| + 1
           + (if Addr(t, i, Slot((off + tot) / BSIZE)) == 0 then 1 else 0) + (if n' == n then 0 else 1)
    ensures var done := if Addr(u, i, Slot((off + tot) / BSIZE)) != 0 then tot + got else tot;
      && Progress(s, was, u, logged', i, off, src, tot, done, tot + m)
      && (done == tot + m ==> Progress(s, was, u, logged', i, off, src, tot + m, tot + m, tot + m))
  {
    hide Put, Covered, Cut, Addr, Slot, Allow;
    var there := Addr(u, i, Slot((off + tot) / BSIZE)) != 0;
    var d := if there then src[tot..tot + m][..got] else [];
    var done := if there then tot + got else tot;
    AllowMore(off, tot, m, |src|);
    FirstBlock(t, i, off, tot);
    PutMore(s, t, u, i, off, src[..tot], d);
    PutKeeps(s, u, i, off, src[..tot] + d);
    CoveredMore(t, u, i, off + tot, 0, off + tot, d);
    if there {
      CoveredMore(t, u, i, off + tot, m, off + tot, d);
    }
    assert src[..tot] + d == src[..done];
  }

  lemma ProgressNone(s: Snap, was: set<nat>, i: nat, off: nat, src: seq<int>)
    requires Sized(s) && i < |s.ino| && off <= s.ino[i].size && off + |src| <= MAXFILE * BSIZE
    ensures Progress(s, was, s, was, i, off, src, 0, 0, 0)
  {
    hide Put, Covered, Cut, Addr;
    GrownSelf(s, i);
    PutNothing(s, s, i, off);
    SizedCovers(s, i, off);
    assert src[..0] == [];
  }

  lemma ProgressEnd(s: Snap, was: set<nat>, t: Snap, logged: set<nat>, i: nat, off: nat, src: seq<int>, tot: nat,
                    done: nat, n: nat)
    requires Progress(s, was, t, logged, i, off, src, tot, done, n) && n <= |src|
    ensures Put(s, t, i, off, src[..done]) && Covered(t, i, off + tot) && PutInode(s, t, i)
    ensures |Cut(logged, Addr(t, i, NDIRECT))| <= |Cut(was, Addr(s, i, NDIRECT))| + Allow(off, |src|) + 1
  {
    hide Put, Covered, Cut, Addr;
  }

  /** Where writei stops when the copy fails at fault: the last block boundary before it, or where it began. */
  function Floor(off: nat, fault: nat): (n: nat)
    ensures n <= fault && (n == 0 || (off + n) % BSIZE == 0)
  {
    if (off + fault) / BSIZE == off / BSIZE then 0 else (off + fault) / BSIZE * BSIZE - off
  }

  lemma FloorIs(off: nat, tot: nat, fault: nat)
    requires tot <= fault && (tot == 0 || (off + tot) % BSIZE == 0)
    ensures tot <= Floor(off, fault) && (fault - tot < BSIZE - (off + tot) % BSIZE ==> tot == Floor(off, fault))
  {
  }

  /** done bytes reached the file where tot are reported, because the copy failed inside a block. */
  predicate Reached(tot: nat, done: nat, n: nat, fault: nat) {
    tot <= done <= n && (done == tot || done == fault < n)
  }

  /**
   Why a write of n bytes stopped at tot: the copy failed in the block there, or before that the
   block was missing and none was free.
   */
  ghost predicate Stopped(s: Snap, i: nat, off: nat, tot: nat, done: nat, n: nat, fault: nat)
    requires i < |s.ino|
  {
    || (done == fault < n && tot == Floor(off, fault))
    || (&& done == tot <= Floor(off, fault) && (off + tot) / BSIZE < MAXFILE
        && Addr(s, i, Slot((off + tot) / BSIZE)) == 0 && forall c :: 0 <= c < |s.owner| ==> s.owner[c] != Free)
  }

  /** writei's loop. It falls short of src when there is no free block or the copy fails. */
  method WriteLoop(fs: Fs, i: nat, off: nat, src: seq<int>, fault: nat) returns (tot: nat, ghost done: nat)
    requires fs.Valid() && i < |fs.ino| && fs.ino[i].kind != 0
    requires off <= fs.ino[i].size && off + |src| <= MAXFILE * BSIZE
    modifies fs
    ensures fs.Valid() && fs.dino == old(fs.dino)
    ensures Reached(tot, done, |src|, fault) && PutInode(old(fs.Now()), fs.Now(), i)
    ensures Put(old(fs.Now()), fs.Now(), i, off, src[..done]) && Covered(fs.Now(), i, off + tot)
    ensures tot < |src| ==> Stopped(fs.Now(), i, off, tot, done, |src|, fault)
    ensures tot == |src| ==> fault >= |src|
    ensures |Cut(fs.logged, Addr(fs.Now(), i, NDIRECT))|
         <= |Cut(old(fs.logged), Addr(old(fs.Now()), i, NDIRECT))| + Allow(off, |src|) + 1
    ensures fs.Logs(old(fs.OnDisk()), fs.OnDisk(), fs.logged + Lost(fs.Now(), i, off, tot, done))
  {
    hide Counted, Links, Sized, Put, Cut, Covered, Allow, Addr, Slot, Progress, Fs.Logs;
    ghost var s, was := fs.Now(), fs.logged;
    fs.LogsNone(fs.OnDisk(), fs.logged);
    ProgressNone(s, was, i, off, src);
    tot, done := 0, 0;
    while tot < |src|
      invariant tot <= |src| && tot <= fault && fs.Valid() && fs.dino == old(fs.dino) && PutInode(s, fs.Now(), i)
      invariant Progress(s, was, fs.Now(), fs.logged, i, off, src, tot, tot, tot)
      invariant (tot == 0 || tot == |src| || (off + tot) % BSIZE == 0)
      invariant fs.Logs(old(fs.OnDisk()), fs.OnDisk(), fs.logged)
    {
      ghost var t, logged, d := fs.Now(), fs.logged, fs.OnDisk();
      var m := if |src| - tot < BSIZE - (off + tot) % BSIZE then |src| - tot else BSIZE - (off + tot) % BSIZE;
      var got := if fault - tot < m then fault - tot else m;
      var ok := WriteChunk(fs, i, off + tot, src[tot..tot + m], got);
      ProgressMore(s, was, t, logged, fs.Now(), fs.logged, i, off, src, tot, m, got);
      ghost var l := fs.logged + Lost(fs.Now(), i, off + tot, 0, if ok then 0 else got);
      fs.LogsMore(old(fs.OnDisk()), d, fs.OnDisk(), logged, l);
      assert ok ==> l == fs.logged;
      if !ok {
        done := if Addr(fs.Now(), i, Slot((off + tot) / BSIZE)) != 0 then tot + got else tot;
        FloorIs(off, tot, fault);
        assert l == fs.logged + Lost(fs.Now(), i, off, tot, done);
        ProgressEnd(s, was, fs.Now(), fs.logged, i, off, src, tot, done, tot + m);
        return;
      }
      ProgressEnd(s, was, fs.Now(), fs.logged, i, off, src, tot + m, tot + m, tot + m);
      tot := tot + m;
    }
    done := tot;
    assert fs.logged + Lost(fs.Now(), i, off, tot, done) == fs.logged;
    ProgressEnd(s, was, fs.Now(), fs.logged, i, off, src, tot, tot, tot);
  }

  ghost predicate PutInode(s: Snap, t: Snap, i: nat) {
    i < |s.ino| && |t.ino| == |s.ino| && t.ino[i] == s.ino[i].(addrs := t.ino[i].addrs)
  }

  lemma PutKeeps(s: Snap, t: Snap, i: nat, off: nat, d: seq<int>)
    requires Put(s, t, i, off, d)
    ensures PutInode(s, t, i)
  {
  }

  lemma SizedCovers(s: Snap, i: nat, off: nat)
    requires Sized(s) && i < |s.ino| && off <= s.ino[i].size
    ensures Covered(s, i, off)
  {
    assert InodeSized(s, i);
  }

  /** A write that starts inside a block starts in one that is there. */
  lemma FirstBlock(s: Snap, i: nat, off: nat, tot: nat)
    requires Covered(s, i, off + tot)
    ensures tot == 0 && off % BSIZE != 0 ==> Addr(s, i, Slot((off + tot) / BSIZE)) != 0
  {
    if tot == 0 && off % BSIZE != 0 {
      assert off / BSIZE * BSIZE < off;
    }
  }

  /** What writei leaves: the bytes replaced, the size grown to cover n of them, and nothing else different. */
  ghost predicate Landed(s: Snap, t: Snap, i: nat, off: nat, d: seq<int>, n: nat) {
    && i < |s.ino| && Replaced(s, t, i, off, d)
    && (forall j: nat {:trigger t.ino[j]} :: j < |s.ino| && j != i ==> t.ino[j] == s.ino[j])
    && t.ino[i] == s.ino[i].(addrs := t.ino[i].addrs,
                             size := if off + n > s.ino[i].size then off + n else s.ino[i].size)
  }

  ghost predicate Wrote(s: Snap, t: Snap, i: nat, off: nat, d: seq<int>) {
    Landed(s, t, i, off, d, |d|)
  }

  lemma Resized(s: Snap, t: Snap, u: Snap, i: nat, off: nat, d: seq<int>, n: nat)
    requires Exact(t) && Put(s, t, i, off, d) && Covered(t, i, off + n) && t.ino[i].kind != 0
    requires var sz := if off + n > t.ino[i].size then off + n else t.ino[i].size;
      u == t.(ino := t.ino[i := t.ino[i].(size := sz)])
    ensures Exact(u) && Landed(s, u, i, off, d, n)
  {
    hide Counted;
    forall j: nat, k: nat | j < |t.ino| && k < SLOTS ensures Addr(u, j, k) == Addr(t, j, k) {
    }
    forall j: nat | j < |u.ino| ensures InodeSized(u, j) {
      assert InodeSized(t, j);
    }
    forall j: nat, x: nat | j < |t.ino| ensures FileByte(u, j, x) == FileByte(t, j, x) {
    }
    forall j: nat | j < |s.ino| && j != i ensures u.ino[j] == s.ino[j] {
      assert u.ino[j] == t.ino[j];
    }
  }

  /** The write, on the file as a sequence. */
  lemma WroteContents(s: Snap, t: Snap, i: nat, off: nat, d: seq<int>)
    requires Wrote(s, t, i, off, d) && off <= s.ino[i].size
    ensures Contents(t, i) == Splice(Contents(s, i), off, d)
    ensures forall j: nat :: j < |s.ino| && j != i ==> Contents(t, j) == Contents(s, j)
  {
    hide FileByte;
    var c, c' := Contents(s, i), Contents(t, i);
    forall x | 0 <= x < |c'| ensures c'[x] == Splice(c, off, d)[x] {
      assert c'[x] == FileByte(t, i, x);
      assert x < |c| ==> c[x] == FileByte(s, i, x);
    }
    forall j: nat | j < |s.ino| && j != i ensures Contents(t, j) == Contents(s, j) {
      assert t.ino[j] == s.ino[j];
      forall x | 0 <= x < s.ino[j].size ensures Contents(t, j)[x] == Contents(s, j)[x] {
        assert FileByte(t, j, x) == FileByte(s, j, x);
      }
    }
  }

  /** The bytes that a copy failing at fault leaves unreported in the file, if any, are what the file c held. */
  predicate Harmless(c: seq<int>, off: nat, src: seq<int>, fault: nat) {
    fault < |src| ==> forall x :: Floor(off, fault) <= x < fault && off + x < |c| ==> src[x] == c[off + x]
  }

  /** A block that is missing lies beyond the end of the file. */
  lemma PastEnd(s: Snap, i: nat, x: nat)
    requires Sized(s) && i < |s.ino| && x / BSIZE < MAXFILE && Addr(s, i, Slot(x / BSIZE)) == 0
    ensures s.ino[i].size <= x
  {
    if x < s.ino[i].size {
      BlockThere(s, i, x);
      assert false;
    }
  }

  lemma WriteExact(s: Snap, t: Snap, i: nat, off: nat, src: seq<int>, tot: nat, done: nat, fault: nat)
    requires Reached(tot, done, |src|, fault) && Landed(s, t, i, off, src[..done], tot) && off <= s.ino[i].size
    requires Sized(t) && (if tot < |src| then Stopped(t, i, off, tot, done, |src|, fault) else fault >= |src|)
    ensures Contents(t, i) == Splice(Contents(s, i), off, src[..tot]) <==> Harmless(Contents(s, i), off, src, fault)
    ensures fault < |src| && off + Floor(off, fault) < s.ino[i].size ==> tot == Floor(off, fault)
  {
    hide Contents, Splice, Sized, Addr, Slot;
    LandedContents(s, t, i, off, src[..done], tot);
    assert src[..done][..tot] == src[..tot];
    if done == tot < |src| && (done != fault || tot != Floor(off, fault)) {
      PastEnd(t, i, off + tot);
    }
  }

  /**
   A write that reports n bytes of d is that write on the file as a sequence exactly if the
   bytes beyond them that reached the file, where the copy failed, are what it held before.
   */
  lemma LandedContents(s: Snap, t: Snap, i: nat, off: nat, d: seq<int>, n: nat)
    requires Landed(s, t, i, off, d, n) && off <= s.ino[i].size && n <= |d|
    ensures Contents(t, i) == Splice(Contents(s, i), off, d[..n]) <==>
      forall x :: n <= x < |d| && off + x < s.ino[i].size ==> d[x] == Contents(s, i)[off + x]
  {
    hide FileByte;
    var c, c', w := Contents(s, i), Contents(t, i), Splice(Contents(s, i), off, d[..n]);
    assert |c'| == |w|;
    forall x | 0 <= x < |c'| ensures c'[x] == if off <= x < off + |d| then d[x - off] else c[x] {
      assert c'[x] == FileByte(t, i, x);
      assert x < |c| ==> c[x] == FileByte(s, i, x);
    }
    if forall x :: n <= x < |d| && off + x < |c| ==> d[x] == c[off + x] {
      forall x | 0 <= x < |c'| ensures c'[x] == w[x] {
        if off + n <= x < off + |d| {
          assert d[x - off] == c[off + (x - off)];
        }
      }
    } else {
      var x :| n <= x < |d| && off + x < |c| && d[x] != c[off + x];
      assert c'[off + x] == d[x] && w[off + x] == c[off + x];
    }
  }

  predicate Refused(size: nat, off: nat, n: nat) {
    off > size || off + n >= UINT || off + n > MAXFILE * BSIZE
  }

  lemma WithIndirect(a: set<nat>, n: nat)
    ensures |a| <= |Cut(a, n)| + 1
  {
    AtMost(a, Cut(a, n) + {n});
    assert |Cut(a, n) + {n}| <= |Cut(a, n)| + 1;
  }

  /**
   writei. A write cut short found no free block, or the copy failed; then done bytes have
   reached the file. `before` is what was logged before the last log_write, iupdate's: for three
   blocks' worth of bytes every log_write is made with fewer than MAXOPBLOCKS distinct blocks logged.
   */
  method WriteI(fs: Fs, i: nat, off: nat, src: seq<int>, fault: nat)
    returns (tot: int, ghost done: nat, ghost before: set<nat>)
    requires fs.Valid() && i < |fs.ino| && fs.ino[i].kind != 0 && off < UINT && |src| < UINT
    modifies fs
    ensures fs.Valid() && (tot == -1 <==> Refused(old(fs.ino)[i].size, off, |src|))
    ensures tot == -1 <==> off > old(fs.ino)[i].size || off + |src| > MAXFILE * BSIZE
    ensures tot == -1 ==> fs.Now() == old(fs.Now()) && fs.logged == old(fs.logged) && fs.dino == old(fs.dino)
    ensures tot != -1 ==>
      0 <= tot && Reached(tot, done, |src|, fault) && Landed(old(fs.Now()), fs.Now(), i, off, src[..done], tot)
    ensures tot != -1 ==> fs.dino == old(fs.dino)[i := fs.ino[i]]
    ensures 0 <= tot < |src| ==> Stopped(fs.Now(), i, off, tot, done, |src|, fault)
    ensures tot == |src| ==> fault >= |src|
    ensures tot != -1 && fault < |src| && off + Floor(off, fault) < old(fs.ino)[i].size ==> tot == Floor(off, fault)
    ensures tot != -1 ==>
      (Contents(fs.Now(), i) == Splice(old(Contents(fs.Now(), i)), off, src[..tot]) <==>
         Harmless(old(Contents(fs.Now(), i)), off, src, fault))
    ensures tot != -1 ==> fs.logged == before + {fs.IBlock(i)}
    ensures var lost := if tot < 0 then {} else Lost(fs.Now(), i, off, tot, done);
      fs.Logs(old(fs.OnDisk()), fs.OnDisk(), fs.logged + lost)
    ensures old(fs.logged) == {} && |src| <= 3 * BSIZE ==> |before| < Log.MAXOPBLOCKS
  {
    hide Counted, Links, Sized, Put, Cut, Covered, Allow, Addr, Landed, Stopped, Contents, Splice, Harmless, Fs.Logs,
      Lost, Floor, Progress, Replaced;
    fs.LogsNone(fs.OnDisk(), fs.logged + {});
    if off > fs.ino[i].size || off + |src| >= UINT {
      return -1, 0, {};
    }
    if off + |src| > MAXFILE * BSIZE {
      return -1, 0, {};
    }
    ghost var s := fs.Now();
    tot, done := WriteLoop(fs, i, off, src, fault);
    ghost var t := fs.Now();
    before := fs.logged;
    CutEmpty(Addr(s, i, NDIRECT));
    WithIndirect(before, Addr(t, i, NDIRECT));
    if |src| <= 3 * BSIZE {
      AllowChunk(off, |src|);
    }
    if off + tot > fs.ino[i].size {
      fs.ino := fs.ino[i := fs.ino[i].(size := off + tot)];
    }
    assert t.ino[i := t.ino[i].(size := t.ino[i].size)] == t.ino;
    Resized(s, t, fs.Now(), i, off, src[..done], tot);
    StoppedStill(t, fs.Now(), i, off, tot, done, |src|, fault);
    WriteExact(s, fs.Now(), i, off, src, tot, done, fault);
    ghost var d, lost := fs.OnDisk(), Lost(t, i, off, tot, done);
    LostStill(t, fs.Now(), i, off, tot, done);
    fs.IUpdate(i);
    LogsWider(fs, d, fs.OnDisk(), fs.logged, fs.logged + lost);
    fs.LogsMore(old(fs.OnDisk()), d, fs.OnDisk(), before + lost, fs.logged + lost);
  }

  lemma LostStill(s: Snap, t: Snap, i: nat, off: nat, tot: nat, done: nat)
    requires i < |s.ino| && |t.ino| == |s.ino| && t.ino[i].addrs == s.ino[i].addrs && t.words == s.words
    ensures Lost(t, i, off, tot, done) == Lost(s, i, off, tot, done)
  {
  }

  lemma StoppedStill(s: Snap, t: Snap, i: nat, off: nat, tot: nat, done: nat, n: nat, fault: nat)
    requires i < |s.ino| && |t.ino| == |s.ino| && t.ino[i].addrs == s.ino[i].addrs
    requires t.words == s.words && t.owner == s.owner
    ensures Stopped(s, i, off, tot, done, n, fault) ==> Stopped(t, i, off, tot, done, n, fault)
  {
  }

  /**
   Such a write: of two bytes the first can be copied and the second cannot. It reaches the
   file, and 0 is reported.
   */
  method UnreportedByte(fs: Fs, i: nat, v: int) returns (tot: int)
    requires fs.Valid() && i < |fs.ino| && fs.ino[i].kind != 0 && fs.ino[i].size > 0
    modifies fs
    ensures tot == 0 && |fs.ino| == |old(fs.ino)| && Contents(fs.Now(), i) == old(Contents(fs.Now(), i))[0 := v]
  {
    hide Counted, Links, Sized, Addr, Slot, FileByte;
    ghost var s, done, before := fs.Now(), 0, {};
    BlockThere(s, i, 0);
    SizeBound(s, i);
    tot, done, before := WriteI(fs, i, 0, [v, v], 1);
    BlockThere(fs.Now(), i, 0);
    assert done == 1 && tot == 0;
    assert [v, v][..done] == [v];
    assert Landed(s, fs.Now(), i, 0, [v], 0) && fs.ino[i].size == s.ino[i].size;
    forall x | 0 <= x < s.ino[i].size ensures Contents(fs.Now(), i)[x] == Contents(s, i)[0 := v][x] {
      assert FileByte(fs.Now(), i, x) == if 0 <= x < 1 then v else FileByte(s, i, x);
    }
  }

  lemma CutEmpty(n: nat)
    ensures Cut({}, n) == {}
  {
  }

  // ---------------------------------------------------------------- readi

  function ReadCount(size: nat, off: nat, n: nat): nat {
    if off > size || off + n >= UINT then 0 else if off + n > size then size - off else n
  }

  /** One turn of readi's loop: the bytes of one block that the caller's buffer takes. */
  method ReadChunk(fs: Fs, i: nat, x: nat, got: nat) returns (c: seq<int>)
    requires fs.Valid() && i < |fs.ino| && fs.ino[i].kind != 0 && x < fs.ino[i].size
    requires x + got <= fs.ino[i].size && x % BSIZE + got <= BSIZE
    modifies fs
    ensures fs.Valid() && fs.Now() == old(fs.Now()) && fs.logged == old(fs.logged) && fs.dino == old(fs.dino)
    ensures c == Contents(fs.Now(), i)[x..x + got]
  {
    hide Counted, Links, Sized, Grown, Addr, Slot, FileByte;
    ghost var s := fs.Now();
    BlockThere(s, i, x);
    var addr := fs.BMap(i, x / BSIZE);
    OwnedBlock(s, i, Slot(x / BSIZE));
    Peek(s, i, x, got);
    c := fs.bytes[addr][x % BSIZE..x % BSIZE + got];
  }

  /**
   readi: a slice of the file, or as much of it as the caller's buffer took. It allocates
   nothing, though it calls bmap.
   */
  method ReadI(fs: Fs, i: nat, off: nat, n: nat, fault: nat) returns (tot: int, dst: seq<int>)
    requires fs.Valid() && i < |fs.ino| && fs.ino[i].kind != 0 && off < UINT && n < UINT
    modifies fs
    ensures fs.Now() == old(fs.Now()) && fs.logged == old(fs.logged) && fs.dino == old(fs.dino)
    ensures var all := ReadCount(fs.ino[i].size, off, n);
      if fault < all then tot == -1 && |dst| == fault else tot == |dst| == all
    ensures |dst| <= n && (off > fs.ino[i].size || off + n >= UINT ==> tot == |dst| == 0)
    ensures off <= fs.ino[i].size && off + n < UINT && tot >= 0 ==> |dst| == n || off + |dst| == fs.ino[i].size
    ensures tot < 0 ==> |dst| == fault < n && off + fault < fs.ino[i].size
    ensures off <= fs.ino[i].size ==> off + |dst| <= fs.ino[i].size && dst == Contents(fs.Now(), i)[off..off + |dst|]
  {
    hide Exact, Contents;
    tot, dst := 0, [];
    if off > fs.ino[i].size || off + n >= UINT {
      return;
    }
    var n' := if off + n > fs.ino[i].size then fs.ino[i].size - off else n;
    while |dst| < n'
      invariant |dst| <= n' && |dst| <= fault && fs.Valid() && fs.Now() == old(fs.Now())
      invariant fs.logged == old(fs.logged) && fs.dino == old(fs.dino)
      invariant dst == Contents(fs.Now(), i)[off..off + |dst|]
      decreases n' - |dst|
    {
      var x := off + |dst|;
      var m := if n' - |dst| < BSIZE - x % BSIZE then n' - |dst| else BSIZE - x % BSIZE;
      var got := if fault - |dst| < m then fault - |dst| else m;
      var c := ReadChunk(fs, i, x, got);
      Longer(Contents(fs.Now(), i), off, x, got);
      dst := dst + c;
      if got < m {
        return -1, dst;
      }
    }
    tot := |dst|;
  }

  lemma Longer(c: seq<int>, a: nat, k: nat, m: nat)
    requires a <= k && k + m <= |c|
    ensures c[a..k] + c[k..k + m] == c[a..k + m]
  {
  }

  lemma BlockThere(s: Snap, i: nat, x: nat)
    requires Sized(s) && i < |s.ino| && x < s.ino[i].size
    ensures x / BSIZE < MAXFILE && Slot(x / BSIZE) < SLOTS && Addr(s, i, Slot(x / BSIZE)) != 0
  {
    assert InodeSized(s, i);
    assert x / BSIZE * BSIZE <= x;
  }

  lemma Peek(s: Snap, i: nat, x: nat, m: nat)
    requires i < |s.ino| && x + m <= s.ino[i].size && x / BSIZE < MAXFILE && x % BSIZE + m <= BSIZE
    requires 0 < Addr(s, i, Slot(x / BSIZE)) < |s.bytes|
    ensures s.bytes[Addr(s, i, Slot(x / BSIZE))][x % BSIZE..x % BSIZE + m] == Contents(s, i)[x..x + m]
  {
    hide Addr;
    var c := s.bytes[Addr(s, i, Slot(x / BSIZE))][x % BSIZE..x % BSIZE + m];
    forall y | 0 <= y < m ensures c[y] == Contents(s, i)[x..x + m][y] {
      assert (x + y) / BSIZE == x / BSIZE && (x + y) % BSIZE == x % BSIZE + y;
      assert Contents(s, i)[x + y] == FileByte(s, i, x + y);
    }
  }

  // ---------------------------------------------------------------- filewrite

  const MAXCHUNK: nat := 3 * BSIZE

  /** The bytes of the next chunk when n are left. */
  function Chunk(n: nat): nat {
    if n > MAXCHUNK then MAXCHUNK else n
  }

  /** Where the chunk begins that byte x of the request is in. */
  function ChunkOf(x: nat): (k: nat)
    ensures k <= x < k + MAXCHUNK && k % MAXCHUNK == 0
  {
    x / MAXCHUNK * MAXCHUNK
  }

  /** The chunk that begins at byte k of a request of n bytes would make the file too large. */
  predicate TooLarge(start: nat, k: nat, n: nat)
    requires k <= n
  {
    start + k + Chunk(n - k) > MAXFILE * BSIZE
  }

  /** Where filewrite stops when the copy fails at fault: where writei stops in that chunk. */
  function FileFloor(start: nat, fault: nat): (n: nat)
    ensures n <= fault
  {
    ChunkOf(fault) + Floor(start + ChunkOf(fault), fault - ChunkOf(fault))
  }

  /** Harmless, for a request in chunks; a chunk that is refused copies nothing. */
  predicate FileHarmless(c: seq<int>, start: nat, src: seq<int>, fault: nat) {
    fault < |src| && !TooLarge(start, ChunkOf(fault), |src|) ==>
      forall x :: FileFloor(start, fault) <= x < fault && start + x < |c| ==> src[x] == c[start + x]
  }

  /** Why filewrite stopped after tot of n bytes, in a file that had size bytes. */
  predicate FileStopped(size: nat, start: nat, tot: nat, done: nat, n: nat, fault: nat) {
    || (done == fault < n && tot == FileFloor(start, fault) && !TooLarge(start, ChunkOf(fault), n))
    || (done == tot <= FileFloor(start, fault) && size <= start + tot)
    || (done == tot <= n && tot <= fault && tot % MAXCHUNK == 0 && TooLarge(start, tot, n))
  }

  lemma SameChunk(k: nat, x: nat)
    requires k % MAXCHUNK == 0 && k <= x
    ensures if x < k + MAXCHUNK then ChunkOf(x) == k else ChunkOf(x) >= k + MAXCHUNK
  {
  }

  lemma FileExact(s: Snap, t: Snap, i: nat, start: nat, src: seq<int>, tot: nat, done: nat, fault: nat)
    requires Reached(tot, done, |src|, fault) && Landed(s, t, i, start, src[..done], tot)
    requires Sized(s) && start <= s.ino[i].size
    requires if tot < |src| then FileStopped(s.ino[i].size, start, tot, done, |src|, fault) else fault >= |src|
    ensures Contents(t, i) == Splice(Contents(s, i), start, src[..tot]) <==>
      FileHarmless(Contents(s, i), start, src, fault)
    ensures fault < |src| && !TooLarge(start, ChunkOf(fault), |src|) ==>
      start + FileFloor(start, fault) < s.ino[i].size ==> tot == FileFloor(start, fault)
  {
    hide Contents, Splice, Floor;
    LandedContents(s, t, i, start, src[..done], tot);
    assert src[..done][..tot] == src[..tot];
    assert InodeSized(s, i);
    if tot < |src| && tot % MAXCHUNK == 0 && tot <= fault {
      SameChunk(tot, fault);
    }
  }

  /** A chunk at k that falls short: what that says of the whole request. */
  lemma ChunkStopped(t: Snap, u: Snap, i: nat, start: nat, k: nat, n1: nat, r: int, got: nat, n: nat, fault: nat,
                     size: nat)
    requires i < |t.ino| && i < |u.ino| && k < n && n1 == Chunk(n - k) && k <= fault && k % MAXCHUNK == 0 && r < n1
    requires start + k <= t.ino[i].size < UINT && size <= t.ino[i].size
    requires if r == -1 then Refused(t.ino[i].size, start + k, n1)
      else 0 <= r && !Refused(t.ino[i].size, start + k, n1) && Sized(u) && t.ino[i].size <= u.ino[i].size
           && Stopped(u, i, start + k, r, got, n1, fault - k)
    ensures FileStopped(size, start, if r < 0 then k else k + r, if r < 0 then k else k + got, n, fault)
  {
    hide Addr, Slot, Floor, Sized;
    SameChunk(k, fault);
    if r >= 0 && !(got == fault - k < n1 && r == Floor(start + k, fault - k)) {
      PastEnd(u, i, start + k + r);
    }
  }

  /** t is s with the first k bytes of the request written; with a start beyond the end of the file nothing is. */
  ghost predicate Along(s: Snap, t: Snap, i: nat, start: nat, src: seq<int>, k: nat) {
    && i < |s.ino| == |t.ino| && k <= |src| && t.ino[i].kind == s.ino[i].kind
    && if start > s.ino[i].size then t == s && k == 0
       else Landed(s, t, i, start, src[..k], k) && start + k <= t.ino[i].size && s.ino[i].size <= t.ino[i].size
  }

  /** Where a request that began in state s ended: tot bytes are reported and done are in place. */
  ghost predicate Ended(s: Snap, t: Snap, i: nat, start: nat, src: seq<int>, tot: nat, done: nat, fault: nat) {
    && i < |s.ino| && Reached(tot, done, |src|, fault) && Landed(s, t, i, start, src[..done], tot)
    && (tot == |src| ==> fault >= |src|)
    && (tot < |src| ==>
          && FileStopped(s.ino[i].size, start, tot, done, |src|, fault)
          && (|| TooLarge(start, tot, |src|) || done == fault < |src|
              || forall c :: 0 <= c < |t.owner| ==> t.owner[c] != Free))
  }

  /** An operation: the disk before and after it, what it had logged before its last log_write and at its end. */
  datatype Operation = Operation(from: Disk, to: Disk, before: set<nat>, logged: set<nat>)

  /**
   The operations lead from d to e, each within its share of the log, and each has logged every
   block that it changed; only the last one may have changed, without logging them, those in lost.
   */
  ghost predicate Trail(fs: Fs, d: Disk, e: Disk, ops: seq<Operation>, lost: set<nat>) {
    && (if ops == [] then d == e else ops[0].from == d && ops[|ops| - 1].to == e)
    && (forall j :: 0 < j < |ops| ==> ops[j].from == ops[j - 1].to)
    && (forall j {:trigger ops[j]} :: 0 <= j < |ops| ==>
          && |ops[j].before| < Log.MAXOPBLOCKS
          && fs.Logs(ops[j].from, ops[j].to, ops[j].logged + if j == |ops| - 1 then lost else {}))
  }

  lemma TrailMore(fs: Fs, d: Disk, e: Disk, ops: seq<Operation>, op: Operation, lost: set<nat>)
    requires Trail(fs, d, e, ops, {}) && op.from == e && |op.before| < Log.MAXOPBLOCKS
    requires fs.Logs(e, op.to, op.logged + lost)
    ensures Trail(fs, d, op.to, ops + [op], lost)
  {
    hide Fs.Logs;
    var more := ops + [op];
    forall j | 0 <= j < |more|
      ensures |more[j].before| < Log.MAXOPBLOCKS
      ensures fs.Logs(more[j].from, more[j].to, more[j].logged + if j == |more| - 1 then lost else {})
    {
      if j < |ops| {
        assert more[j] == ops[j];
        assert ops[j].logged + (if j == |ops| - 1 then {} else {}) == ops[j].logged + {};
      }
    }
  }

  /** One operation of filewrite: begin_op, writei, end_op. */
  method OneChunk(fs: Fs, i: nat, start: nat, src: seq<int>, k: nat, n1: nat, fault: nat, ghost s: Snap)
    returns (r: int, ghost got: nat, ghost before: set<nat>, ghost lost: set<nat>)
    requires fs.Valid() && start < UINT && |src| < UINT / 2
    requires Along(s, fs.Now(), i, start, src, k) && s.ino[i].kind != 0
    requires k < |src| && k % MAXCHUNK == 0 && n1 == Chunk(|src| - k) && k <= fault
    modifies fs
    ensures fs.Valid() && -1 <= r <= n1 && |before| < Log.MAXOPBLOCKS
    ensures r == n1 ==> Along(s, fs.Now(), i, start, src, k + r) && k + r <= fault
    ensures r < n1 && start <= s.ino[i].size ==>
      if r < 0 then Ended(s, fs.Now(), i, start, src, k, k, fault)
      else Ended(s, fs.Now(), i, start, src, k + r, k + got, fault)
    ensures start > s.ino[i].size ==> r == -1 && k == 0 && fs.Now() == s
    ensures fs.Logs(old(fs.OnDisk()), fs.OnDisk(), fs.logged + lost) && (r == n1 || r < 0 || got == r ==> lost == {})
  {
    hide Counted, Links, Sized, Landed, Addr, FileByte, Contents, Splice, FileStopped, Floor, Harmless, Fs.Logs;
    SizeBound(fs.Now(), i);
    fs.logged := {};
    ghost var t := fs.Now();
    r, got, before := WriteI(fs, i, start + k, src[k..k + n1], fault - k);
    lost := if r < 0 then {} else Lost(fs.Now(), i, start + k, r, got);
    if r >= 0 {
      LandedMore(s, t, fs.Now(), i, start, src[..k], src[k..k + n1][..got], r);
      Joined(src, k, n1, got);
    }
    if r != n1 && start <= s.ino[i].size {
      ChunkStopped(t, fs.Now(), i, start, k, n1, r, got, |src|, fault, s.ino[i].size);
    }
  }

  /** filewrite's loop: k is its i, and off the file's offset, which also counts what the last chunk wrote. */
  method ChunkLoop(fs: Fs, i: nat, start: nat, src: seq<int>, fault: nat)
    returns (k: nat, off: nat, ghost done: nat, ghost ops: seq<Operation>, ghost lost: set<nat>)
    requires fs.Valid() && i < |fs.ino| && fs.ino[i].kind != 0 && start < UINT && |src| < UINT / 2
    modifies fs
    ensures fs.Valid() && start + k <= off <= start + |src| && (k == |src| <==> off == start + |src|)
    ensures Trail(fs, old(fs.OnDisk()), fs.OnDisk(), ops, lost) && (done == off - start ==> lost == {})
    ensures start <= old(fs.ino)[i].size ==> Ended(old(fs.Now()), fs.Now(), i, start, src, off - start, done, fault)
    ensures start > old(fs.ino)[i].size ==> fs.Now() == old(fs.Now()) && off == start
  {
    hide Exact, Along, Ended, Trail, Fs.Logs;
    var max := (Log.MAXOPBLOCKS - 1 - 1 - 2) / 2 * BSIZE;
    ghost var s := fs.Now();
    k, off, done, ops, lost := 0, start, 0, [], {};
    AlongNone(s, i, start, src);
    TrailNone(fs, fs.OnDisk());
    while k < |src|
      invariant k <= |src| && k <= fault && off == start + k && done == k && fs.Valid() && lost == {}
      invariant (k == |src| || k % MAXCHUNK == 0) && Along(s, fs.Now(), i, start, src, k)
      invariant Trail(fs, old(fs.OnDisk()), fs.OnDisk(), ops, {})
    {
      var n1 := if |src| - k > max then max else |src| - k;
      var r;
      ghost var got, before;
      ghost var d := fs.OnDisk();
      r, got, before, lost := OneChunk(fs, i, start, src, k, n1, fault, s);
      ghost var op := Operation(d, fs.OnDisk(), before, fs.logged);
      TrailMore(fs, old(fs.OnDisk()), d, ops, op, lost);
      ops := ops + [op];
      if r > 0 {
        off := off + r;
      }
      if r != n1 {
        done := if r >= 0 then k + got else k;
        return;
      }
      k := k + r;
      done := k;
    }
    AlongAll(s, fs.Now(), i, start, src, fault);
  }

  lemma TrailNone(fs: Fs, d: Disk)
    ensures Trail(fs, d, d, [], {})
  {
  }

  lemma AlongNone(s: Snap, i: nat, start: nat, src: seq<int>)
    requires i < |s.ino|
    ensures Along(s, s, i, start, src, 0)
  {
    if start <= s.ino[i].size {
      WroteNothing(s, i, start);
      assert src[..0] == [];
    }
  }

  lemma AlongAll(s: Snap, t: Snap, i: nat, start: nat, src: seq<int>, fault: nat)
    requires Along(s, t, i, start, src, |src|) && fault >= |src|
    ensures start <= s.ino[i].size ==> Ended(s, t, i, start, src, |src|, |src|, fault)
    ensures start > s.ino[i].size ==> t == s && src == []
  {
  }

  /**
   filewrite on an inode, with nobody else writing in between: everything, or as much as
   found room and could be copied. Each chunk is an operation of its own, and `ops` are these in
   order; `lost` is a block that a failed copy changed. src are the n bytes, none if n is negative.
   */
  method FileWrite(fs: Fs, i: nat, start: nat, src: seq<int>, n: int, fault: nat)
    returns (ret: int, off: nat, ghost done: nat, ghost ops: seq<Operation>, ghost lost: set<nat>)
    requires fs.Valid() && i < |fs.ino| && fs.ino[i].kind != 0 && start < UINT
    requires |src| == (if n < 0 then 0 else n) && n < UINT / 2
    modifies fs
    ensures fs.Valid() && start <= off <= start + |src|
    ensures ret == if n >= 0 && off == start + n then n else -1
    ensures Trail(fs, old(fs.OnDisk()), fs.OnDisk(), ops, lost) && (done == off - start ==> lost == {})
    ensures start <= old(fs.ino)[i].size ==> Ended(old(fs.Now()), fs.Now(), i, start, src, off - start, done, fault)
    ensures start > old(fs.ino)[i].size ==> fs.Now() == old(fs.Now()) && off == start
    ensures fault < |src| && !TooLarge(start, ChunkOf(fault), |src|) ==>
      start + FileFloor(start, fault) < old(fs.ino)[i].size ==> off == start + FileFloor(start, fault)
    ensures start <= old(fs.ino)[i].size ==>
      (Contents(fs.Now(), i) == Splice(old(Contents(fs.Now(), i)), start, src[..off - start]) <==>
         FileHarmless(old(Contents(fs.Now(), i)), start, src, fault))
  {
    hide Counted, Links, Sized, Landed, Contents, Splice, FileHarmless, FileStopped, Floor, Trail;
    ghost var s := fs.Now();
    var k;
    k, off, done, ops, lost := ChunkLoop(fs, i, start, src, fault);
    ret := if k == n then n else -1;
    if start <= s.ino[i].size {
      FileExact(s, fs.Now(), i, start, src, off - start, done, fault);
    }
  }

  /**
   In every run of the log: an operation that has logged no more than one of filewrite's chunks
   before its last log_write does not meet log_write's panics.
   */
  lemma ChunkFits(ss: seq<Log.State>, acts: seq<Log.Action>, k: nat, i: nat, before: set<nat>)
    requires Log.Run(ss, acts) && Log.Initial(ss[0]) && k < |ss| && i < |ss[k].ops|
    requires Log.Mine(ss, acts, k, ss[k].ops[i].id) <= before && |before| < Log.MAXOPBLOCKS
    ensures |ss[k].lh| < Log.LOGBLOCKS && |ss[k].ops| >= 1
  {
    AtMost(Log.Mine(ss, acts, k, ss[k].ops[i].id), before);
    Log.ShareSuffices(ss, acts, k, i);
  }

  lemma Joined(c: seq<int>, k: nat, n: nat, m: nat)
    requires k + n <= |c| && m <= n
    ensures c[..k] + c[k..k + n][..m] == c[..k + m]
  {
  }

  lemma SizeBound(s: Snap, i: nat)
    requires Sized(s) && i < |s.ino|
    ensures s.ino[i].size < UINT
  {
    assert InodeSized(s, i);
  }

  lemma WroteNothing(s: Snap, i: nat, off: nat)
    requires i < |s.ino| && off <= s.ino[i].size
    ensures Wrote(s, s, i, off, [])
  {
  }

  lemma LandedMore(s: Snap, t: Snap, u: Snap, i: nat, off: nat, d: seq<int>, e: seq<int>, n: nat)
    requires Landed(s, t, i, off, d, |d|) && Landed(t, u, i, off + |d|, e, n)
    ensures Landed(s, u, i, off, d + e, |d| + n) && u.ino[i].kind == s.ino[i].kind
    ensures off + |d| + n <= u.ino[i].size && s.ino[i].size <= t.ino[i].size <= u.ino[i].size
  {
    forall j: nat, x: nat | j < |s.ino|
      ensures FileByte(u, j, x) == if j == i && off <= x < off + |d + e| then (d + e)[x - off] else FileByte(s, j, x)
    {
      assert FileByte(t, j, x) == if j == i && off <= x < off + |d| then d[x - off] else FileByte(s, j, x);
    }
    forall j: nat | j < |s.ino| && j != i ensures u.ino[j] == s.ino[j] {
      assert t.ino[j] == s.ino[j];
    }
  }
}
