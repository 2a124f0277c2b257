/**
 copyout, copyin and vmfault of kernel/vm.c over user memory as a flat array of bytes.

 The table is the current process's own and sz its size, as vmfault assumes.
 */
module CopyUser {
  import opened PageTable
  import opened UserMemory

  /** The byte at user address a; zero where nothing is mapped yet. */
  ghost function Byte(s: Snap, root: nat, a: nat): int {
    var e := View(s, root, a / PGSIZE);
    if a / PGSIZE < TRAPFRAME && e.v && e.ppn in s.data then s.data[e.ppn][a % PGSIZE] else 0
  }

  /** The bytes c stand at address a of root; every other byte of every address space is as before. */
  ghost predicate Written(s: Snap, t: Snap, root: nat, a: nat, c: seq<int>) {
    forall r: nat, b: nat {:trigger Byte(t, r, b)} ::
      Byte(t, r, b) == if r == root && a <= b < a + |c| then c[b - a] else Byte(s, r, b)
  }

  lemma WrittenMore(s: Snap, t: Snap, u: Snap, root: nat, a: nat, c: seq<int>, d: seq<int>)
    requires Written(s, t, root, a, c) && Written(t, u, root, a + |c|, d)
    ensures Written(s, u, root, a, c + d)
  {
    forall r: nat, b: nat
      ensures Byte(u, r, b) == if r == root && a <= b < a + |c + d| then (c + d)[b - a] else Byte(s, r, b)
    {
      assert Byte(t, r, b) == if r == root && a <= b < a + |c| then c[b - a] else Byte(s, r, b);
    }
  }

  lemma WrittenNone(s: Snap, root: nat, a: nat)
    ensures Written(s, s, root, a, [])
  {
  }

  /**
   Pages of root below limit may have been mapped since s; nothing in use has moved, and only
   user pages were written.
   */
  ghost predicate Faulted(s: Snap, t: Snap, root: nat, limit: nat) {
    && t.owner.Keys == s.owner.Keys
    && (forall k :: k in s.at ==> k in t.at && t.at[k] == s.at[k])
    && (forall p :: p in s.owner && s.owner[p] != Free ==> t.owner[p] == s.owner[p])
    && (forall p :: p in s.owner && t.owner[p] != s.owner[p] ==>
      t.owner[p].Node? || InRange(t.owner[p], root, 0, limit))
    && (forall p :: p !in s.owner || s.owner[p].Held? || s.owner[p].Node? ==> SameData(s.data, t.data, p))
    && (forall r: nat, v: nat {:trigger View(t, r, v)} ::
          View(t, r, v) == View(s, r, v) || (r == root && v < limit && View(s, r, v) == ZERO))
  }

  lemma FaultedMore(s: Snap, t: Snap, u: Snap, root: nat, limit: nat)
    requires Faulted(s, t, root, limit) && Faulted(t, u, root, limit)
    ensures Faulted(s, u, root, limit)
  {
    forall r: nat, v: nat ensures View(u, r, v) == View(s, r, v) || (r == root && v < limit && View(s, r, v) == ZERO) {
      assert View(t, r, v) == View(s, r, v) || (r == root && v < limit && View(s, r, v) == ZERO);
    }
  }

  lemma FaultedNone(s: Snap, root: nat, limit: nat)
    ensures Faulted(s, s, root, limit)
  {
  }

  /** Only the kernel may use the pages from the trapframe up. */
  ghost predicate Private(s: Snap, root: nat) {
    forall v: nat {:trigger View(s, root, v)} :: v >= TRAPFRAME ==> !View(s, root, v).perm.u
  }

  lemma PrivateKept(s: Snap, t: Snap, root: nat, limit: nat)
    requires Private(s, root) && Faulted(s, t, root, limit) && limit <= TRAPFRAME
    ensures Private(t, root) && forall k :: k in s.at ==> k in t.at
  {
    forall v: nat | v >= TRAPFRAME ensures !View(t, root, v).perm.u {
      assert View(t, root, v) == View(s, root, v);
    }
  }

  lemma WithinKept(s: Snap, t: Snap, root: nat, sz: nat)
    requires Within(s, root, sz) && Faulted(s, t, root, Pages(sz))
    ensures Within(t, root, sz)
  {
    forall v: nat | v >= Pages(sz) && v != TRAMPOLINE && v != TRAPFRAME ensures !View(t, root, v).v {
      assert View(t, root, v) == View(s, root, v);
    }
  }

  predicate Accessible(e: Pte, write: bool) {
    e.v && e.perm.u && (write ==> e.perm.w)
  }

  // ---------------------------------------------------------------- faulting a page in

  lemma ExtendedFaulted(root: nat, s: Snap, t: Snap, v: nat, n: nat, limit: nat)
    requires Extended(root, s, t, v, n) && v + n <= limit && (n > 0 ==> n == 1 && !View(s, root, v).v)
    ensures Faulted(s, t, root, limit)
  {
    forall r: nat, x: nat ensures View(t, r, x) == View(s, r, x) || (r == root && x < limit && View(s, r, x) == ZERO) {
    }
  }

  /** A page faulted in reads as zero, which is what it read before. */
  lemma ExtendedBytes(root: nat, s: Snap, t: Snap, v: nat, n: nat, perm: Perm)
    requires Extended(root, s, t, v, n) && Leaves(s) && n <= 1
    requires n == 1 ==> !View(s, root, v).v && FreshPage(s, t, root, v, perm, ZeroPage())
    ensures forall a: nat :: Written(s, t, root, a, [])
  {
    forall r: nat, b: nat ensures Byte(t, r, b) == Byte(s, r, b) {
      var x := b / PGSIZE;
      var e := View(s, r, x);
      if !(r == root && v <= x < v + n) {
        assert View(t, r, x) == e;
        if x < TRAPFRAME && e.v {
          assert s.owner[e.ppn] == Mapped(r, x);
          assert SameData(s.data, t.data, e.ppn);
        }
      }
    }
  }

  /** vmfault */
  method VmFault(m: Machine, root: nat, sz: nat, va: nat) returns (p: nat, ok: bool)
    requires m.Valid() && Top(root) in m.at && sz <= MAXSIZE
    modifies m
    ensures m.Valid() && Faulted(old(m.Now()), m.Now(), root, Pages(sz))
    ensures Extended(root, old(m.Now()), m.Now(), va / PGSIZE, if ok then 1 else 0)
    ensures forall a: nat :: Written(old(m.Now()), m.Now(), root, a, [])
    ensures ok ==> va < sz && !View(old(m.Now()), root, va / PGSIZE).v && p == View(m.Now(), root, va / PGSIZE).ppn
    ensures ok ==> FreshPage(old(m.Now()), m.Now(), root, va / PGSIZE, Perm(true, true, false, true), ZeroPage())
    ensures !ok ==> va >= sz || View(m.Now(), root, va / PGSIZE).v || |m.free| <= 1
    ensures old(Within(m.Now(), root, sz)) ==> Within(m.Now(), root, sz)
  {
    hide Tree, Books, Leaves, Extended, FreshPage, Written, Faulted, Within;
    ghost var s := m.Now();
    var v := va / PGSIZE;
    ExtendedSelf(root, s, v);
    WrittenNothing(s, root);
    FaultedNone(s, root, Pages(sz));
    if va >= sz {
      return 0, false;
    }
    var n, found := m.Walk(root, v, false);
    EntryOf(s, root, v);
    if found && m.ptes[n][v % ENTRIES].v {
      return 0, false;
    }
    p, ok := m.AllocMap(root, v, Perm(true, true, false, true), ZeroPage());
    if ok {
      FreshFrom(s, m.Now(), root, v, Perm(true, true, false, true), ZeroPage());
    }
    ExtendedBytes(root, s, m.Now(), v, if ok then 1 else 0, Perm(true, true, false, true));
    ExtendedFaulted(root, s, m.Now(), v, if ok then 1 else 0, Pages(sz));
    if Within(s, root, sz) {
      WithinKept(s, m.Now(), root, sz);
    }
  }

  lemma WrittenNothing(s: Snap, root: nat)
    ensures forall a: nat :: Written(s, s, root, a, [])
  {
  }

  // ---------------------------------------------------------------- moving bytes

  /** walkaddr */
  method WalkAddr(m: Machine, root: nat, v: nat) returns (p: nat, ok: bool)
    requires m.Valid() && Top(root) in m.at
    modifies m
    ensures m.Now() == old(m.Now()) && m.free == old(m.free)
    ensures ok <==> v < MAXVPN && Accessible(View(m.Now(), root, v), false)
    ensures ok ==> p == View(m.Now(), root, v).ppn
  {
    hide Tree, Books, Leaves, Grew, ViewKept;
    if v >= MAXVPN {
      return 0, false;
    }
    var n, found := m.Walk(root, v, false);
    EntryOf(m.Now(), root, v);
    if !found || !m.ptes[n][v % ENTRIES].v || !m.ptes[n][v % ENTRIES].perm.u {
      return 0, false;
    }
    return m.ptes[n][v % ENTRIES].ppn, true;
  }

  /** Why no byte of page v can be had. */
  ghost predicate Blocked(s: Snap, root: nat, v: nat, sz: nat, write: bool, left: nat) {
    var e := View(s, root, v);
    v >= MAXVPN || if e.v then !Accessible(e, write) else v * PGSIZE >= sz || left <= 1
  }

  /** One page of copyin or, with write set, copyout: looked up, or else faulted in. */
  method UserPage(m: Machine, root: nat, sz: nat, v: nat, write: bool) returns (p: nat, ok: bool)
    requires m.Valid() && Top(root) in m.at && sz <= MAXSIZE && Private(m.Now(), root)
    modifies m
    ensures m.Valid() && Faulted(old(m.Now()), m.Now(), root, Pages(sz))
    ensures forall a: nat :: Written(old(m.Now()), m.Now(), root, a, [])
    ensures ok ==> v < TRAPFRAME && Accessible(View(m.Now(), root, v), write) && p == View(m.Now(), root, v).ppn
    ensures !ok ==> Blocked(m.Now(), root, v, sz, write, |m.free|)
  {
    hide Tree, Books, Leaves, Written, Faulted, Extended, FreshPage, ZeroPage;
    ghost var s := m.Now();
    FaultedNone(s, root, Pages(sz));
    WrittenNothing(s, root);
    if write && v >= MAXVPN {
      return 0, false;
    }
    p, ok := WalkAddr(m, root, v);
    if !ok {
      p, ok := VmFault(m, root, sz, v * PGSIZE);
      if !ok {
        OutsideKept(root, s, m.Now(), v, 0, v);
        return;
      }
      FreshIs(s, m.Now(), root, v, Perm(true, true, false, true), ZeroPage());
    }
    if write {
      FaultedKeeps(s, m.Now(), root, Pages(sz));
      var n, found := m.Walk(root, v, false);
      EntryOf(m.Now(), root, v);
      ok := m.ptes[n][v % ENTRIES].perm.w;
    }
  }

  lemma FaultedKeeps(s: Snap, t: Snap, root: nat, limit: nat)
    requires Faulted(s, t, root, limit)
    ensures forall k :: k in s.at ==> k in t.at
  {
  }

  lemma FreshIs(s: Snap, t: Snap, root: nat, u: nat, perm: Perm, bytes: Bytes)
    requires FreshPage(s, t, root, u, perm, bytes)
    ensures View(t, root, u).v && View(t, root, u).perm == perm
  {
  }

  function Patch(b: Bytes, o: nat, c: seq<int>): (r: Bytes)
    requires o + |c| <= PGSIZE
    ensures forall i :: 0 <= i < PGSIZE ==> r[i] == if o <= i < o + |c| then c[i - o] else b[i]
  {
    b[..o] + c + b[o + |c|..]
  }

  /** memmove into a user page changes those bytes of that address space only. */
  lemma Poke(s: Snap, t: Snap, root: nat, v: nat, o: nat, c: seq<int>, limit: nat)
    requires Leaves(s) && v < TRAPFRAME && View(s, root, v).v && o + |c| <= PGSIZE
    requires var p := View(s, root, v).ppn; p in s.data && t == s.(data := s.data[p := Patch(s.data[p], o, c)])
    ensures Written(s, t, root, v * PGSIZE + o, c) && Leaves(t) && Faulted(s, t, root, limit)
  {
    var p := View(s, root, v).ppn;
    forall r: nat, x: nat ensures View(t, r, x) == View(s, r, x) {
    }
    forall r: nat, b: nat
      ensures Byte(t, r, b) == if r == root && v * PGSIZE + o <= b < v * PGSIZE + o + |c| then c[b - (v * PGSIZE + o)]
        else Byte(s, r, b)
    {
      var x := b / PGSIZE;
      var e := View(s, r, x);
      assert View(t, r, x) == e;
      if x < TRAPFRAME && e.v && e.ppn == p {
        assert s.owner[p] == Mapped(r, x) == Mapped(root, v);
      }
    }
  }

  lemma MappedData(s: Snap, root: nat, v: nat)
    requires Leaves(s) && v < TRAPFRAME && View(s, root, v).v
    ensures View(s, root, v).ppn in s.data
  {
    assert s.owner[View(s, root, v).ppn] == Mapped(root, v);
  }

  /** memmove(pa0 + o, chunk, |chunk|) */
  method Poked(m: Machine, root: nat, v: nat, p: nat, o: nat, chunk: seq<int>, ghost limit: nat)
    requires m.Valid() && v < TRAPFRAME && View(m.Now(), root, v).v
    requires p == View(m.Now(), root, v).ppn && o + |chunk| <= PGSIZE
    modifies m`data
    ensures m.Valid() && Written(old(m.Now()), m.Now(), root, v * PGSIZE + o, chunk)
    ensures Faulted(old(m.Now()), m.Now(), root, limit)
  {
    hide Tree, Books, Leaves, Written, Faulted;
    MappedData(m.Now(), root, v);
    m.data := m.data[p := Patch(m.data[p], o, chunk)];
    Poke(old(m.Now()), m.Now(), root, v, o, chunk, limit);
  }

  /** Pages holding a byte of a..a+n are accessible. */
  ghost predicate Open(s: Snap, root: nat, a: nat, n: nat, write: bool) {
    forall v: nat {:trigger View(s, root, v)} :: n > 0 && a < (v + 1) * PGSIZE && v * PGSIZE < a + n ==>
      Accessible(View(s, root, v), write)
  }

  lemma OpenMore(s: Snap, t: Snap, root: nat, limit: nat, a: nat, n: nat, k: nat, write: bool)
    requires Open(s, root, a, n, write) && Faulted(s, t, root, limit)
    requires (a + n) / PGSIZE * PGSIZE + PGSIZE >= a + n + k
    requires (k > 0 ==> Accessible(View(t, root, (a + n) / PGSIZE), write))
    ensures Open(t, root, a, n + k, write)
  {
    forall v: nat | n + k > 0 && a < (v + 1) * PGSIZE && v * PGSIZE < a + n + k
      ensures Accessible(View(t, root, v), write)
    {
      if n > 0 && v * PGSIZE < a + n {
        assert Accessible(View(s, root, v), write);
        assert View(t, root, v) == View(s, root, v);
      } else {
        assert v == (a + n) / PGSIZE;
      }
    }
  }

  /**
   copyout. done counts the bytes moved; when it falls short, the page of the next byte is
   one the process may not write, or cannot be had.
   */
  method CopyOut(m: Machine, root: nat, sz: nat, dst: nat, src: seq<int>) returns (ok: bool, ghost done: nat)
    requires m.Valid() && Top(root) in m.at && sz <= MAXSIZE && Private(m.Now(), root)
    modifies m
    ensures m.Valid() && Faulted(old(m.Now()), m.Now(), root, Pages(sz))
    ensures done <= |src| && (ok <==> done == |src|)
    ensures Written(old(m.Now()), m.Now(), root, dst, src[..done]) && Open(m.Now(), root, dst, done, true)
    ensures !ok ==> Blocked(m.Now(), root, (dst + done) / PGSIZE, sz, true, |m.free|)
    ensures old(Within(m.Now(), root, sz)) ==> Within(m.Now(), root, sz)
  {
    hide Tree, Books, Leaves, Written, Faulted, Private, Open, Blocked, Within;
    ghost var s := m.Now();
    var i := 0;
    FaultedNone(s, root, Pages(sz));
    WrittenNone(s, root, dst);
    OpenNone(s, root, dst, true);
    while i < |src|
      invariant i <= |src| && m.Valid() && Top(root) in m.at && Private(m.Now(), root)
      invariant Faulted(s, m.Now(), root, Pages(sz))
      invariant Written(s, m.Now(), root, dst, src[..i]) && Open(m.Now(), root, dst, i, true)
    {
      var v, o := (dst + i) / PGSIZE, (dst + i) % PGSIZE;
      ghost var t := m.Now();
      var p, got := UserPage(m, root, sz, v, true);
      ghost var u := m.Now();
      WrittenMore(s, t, u, root, dst, src[..i], []);
      FaultedMore(s, t, u, root, Pages(sz));
      OpenMore(t, u, root, Pages(sz), dst, i, 0, true);
      assert src[..i] + [] == src[..i];
      if Within(s, root, sz) {
        WithinKept(s, u, root, sz);
      }
      if !got {
        return false, i;
      }
      var n := if PGSIZE - o > |src| - i then |src| - i else PGSIZE - o;
      Poked(m, root, v, p, o, src[i..i + n], Pages(sz));
      WrittenMore(s, u, m.Now(), root, dst, src[..i], src[i..i + n]);
      FaultedMore(s, u, m.Now(), root, Pages(sz));
      OpenMore(u, m.Now(), root, Pages(sz), dst, i, n, true);
      PrivateKept(s, m.Now(), root, Pages(sz));
      assert src[..i] + src[i..i + n] == src[..i + n];
      i := i + n;
    }
    assert src[..i] == src;
    if Within(s, root, sz) {
      WithinKept(s, m.Now(), root, sz);
    }
    return true, i;
  }

  lemma OpenNone(s: Snap, root: nat, a: nat, write: bool)
    ensures Open(s, root, a, 0, write)
  {
  }

  /** copyin. Reading a page that is not there yet maps it, but no byte of user memory changes. */
  method CopyIn(m: Machine, root: nat, sz: nat, src: nat, len: nat) returns (ok: bool, dst: seq<int>)
    requires m.Valid() && Top(root) in m.at && sz <= MAXSIZE && Private(m.Now(), root)
    modifies m
    ensures m.Valid() && Faulted(old(m.Now()), m.Now(), root, Pages(sz))
    ensures Written(old(m.Now()), m.Now(), root, src, [])
    ensures |dst| <= len && (ok <==> |dst| == len)
    ensures forall i :: 0 <= i < |dst| ==> dst[i] == Byte(old(m.Now()), root, src + i)
    ensures !ok ==> Blocked(m.Now(), root, (src + |dst|) / PGSIZE, sz, false, |m.free|)
    ensures old(Within(m.Now(), root, sz)) ==> Within(m.Now(), root, sz)
  {
    hide Tree, Books, Leaves, Written, Faulted, Private, Blocked, Byte, Within;
    ghost var s := m.Now();
    ghost var none: seq<int> := [];
    dst := [];
    FaultedNone(s, root, Pages(sz));
    WrittenNone(s, root, src);
    while |dst| < len
      invariant |dst| <= len && m.Valid() && Top(root) in m.at && Private(m.Now(), root)
      invariant Faulted(s, m.Now(), root, Pages(sz)) && Written(s, m.Now(), root, src, [])
      invariant forall i :: 0 <= i < |dst| ==> dst[i] == Byte(s, root, src + i)
      decreases len - |dst|
    {
      var v, o := (src + |dst|) / PGSIZE, (src + |dst|) % PGSIZE;
      ghost var t := m.Now();
      var p, got := UserPage(m, root, sz, v, false);
      WrittenMore(s, t, m.Now(), root, src, none, none);
      assert none + none == none;
      FaultedMore(s, t, m.Now(), root, Pages(sz));
      if !got {
        if Within(s, root, sz) {
          WithinKept(s, m.Now(), root, sz);
        }
        return false, dst;
      }
      PrivateKept(s, m.Now(), root, Pages(sz));
      var n := if PGSIZE - o > len - |dst| then len - |dst| else PGSIZE - o;
      MappedData(m.Now(), root, v);
      var c := m.data[p][o..o + n];
      Peek(s, m.Now(), root, src + |dst|, src, v, o, c);
      dst := dst + c;
    }
    if Within(s, root, sz) {
      WithinKept(s, m.Now(), root, sz);
    }
    ok := true;
  }

  /** The bytes of a user page are the bytes of the address space there. */
  lemma Peek(s: Snap, t: Snap, root: nat, a: nat, b: nat, v: nat, o: nat, c: seq<int>)
    requires v < TRAPFRAME && View(t, root, v).v && View(t, root, v).ppn in t.data && o + |c| <= PGSIZE
    requires c == t.data[View(t, root, v).ppn][o..o + |c|] && a == v * PGSIZE + o && Written(s, t, root, b, [])
    ensures forall i :: 0 <= i < |c| ==> c[i] == Byte(s, root, a + i)
  {
    hide Written;
    forall i | 0 <= i < |c| ensures c[i] == Byte(s, root, a + i) {
      ByteKept(s, t, root, b, a + i);
      assert (a + i) / PGSIZE == v && (a + i) % PGSIZE == o + i;
    }
  }

  lemma ByteKept(s: Snap, t: Snap, root: nat, b: nat, a: nat)
    requires Written(s, t, root, b, [])
    ensures Byte(t, root, a) == Byte(s, root, a)
  {
  }

  /** Bytes put into user memory by copyout are the bytes copyin gets back, whatever the alignment. */
  method OutThenIn(m: Machine, root: nat, sz: nat, a: nat, bytes: seq<int>)
    returns (ok: bool, back: seq<int>, ghost done: nat)
    requires m.Valid() && Top(root) in m.at && sz <= MAXSIZE && Private(m.Now(), root)
    modifies m
    ensures m.Valid() && (ok ==> back == bytes)
    ensures !ok ==> Blocked(m.Now(), root, (a + done) / PGSIZE, sz, true, |m.free|)
  {
    hide Tree, Books, Leaves, Private, Byte;
    ghost var s := m.Now();
    ok, done := CopyOut(m, root, sz, a, bytes);
    if !ok {
      return false, [], done;
    }
    ghost var t := m.Now();
    assert bytes[..done] == bytes;
    PrivateKept(s, t, root, Pages(sz));
    assert forall i :: 0 <= i < |bytes| ==> Byte(t, root, a + i) == bytes[i];
    var all;
    all, back := CopyIn(m, root, sz, a, |bytes|);
    if !all {
      NeverBlocked(t, m.Now(), root, a, |bytes|, |back|, sz, |m.free|);
    }
  }

  /** An open range cannot stop copyin. */
  lemma NeverBlocked(s: Snap, t: Snap, root: nat, a: nat, n: nat, k: nat, sz: nat, left: nat)
    requires Open(s, root, a, n, true) && Private(s, root) && Faulted(s, t, root, Pages(sz)) && k < n
    ensures !Blocked(t, root, (a + k) / PGSIZE, sz, false, left)
  {
    var v := (a + k) / PGSIZE;
    assert Accessible(View(s, root, v), true);
    assert View(t, root, v) == View(s, root, v);
  }

  /** After uvmcopy the child's memory reads as the parent's did. */
  lemma CopiedBytes(s: Snap, t: Snap, parent: nat, child: nat, n: nat)
    requires n <= TRAPFRAME && forall u: nat :: u < n ==> Copied(s, t, parent, child, u)
    ensures forall a: nat :: a / PGSIZE < n ==> Byte(t, child, a) == Byte(s, parent, a)
  {
    forall a: nat | a / PGSIZE < n ensures Byte(t, child, a) == Byte(s, parent, a) {
      assert Copied(s, t, parent, child, a / PGSIZE);
    }
  }
}
