/**
 The user-memory half of kernel/vm.c: growing, shrinking, copying, faulting in and
 freeing an address space, and moving bytes in and out of it.
 */
module UserMemory {
  import opened PageTable

  const MAXSIZE: nat := TRAPFRAME * PGSIZE      // what a process may grow to

  /** PGROUNDUP(sz) / PGSIZE */
  function Pages(sz: nat): nat {
    (sz + PGSIZE - 1) / PGSIZE
  }

  function ZeroPage(): (b: Bytes)
    ensures |b| == PGSIZE && forall i :: 0 <= i < PGSIZE ==> b[i] == 0
  {
    seq(PGSIZE, i => 0)
  }

  // ---------------------------------------------------------------- freeing a whole table

  predicate BelongsTo(role: Role, root: nat) {
    (role.Node? && role.k.root == root) || (role.Mapped? && role.root == root)
  }

  /** The table at root is gone: each page it used is free, and nothing else has changed. */
  ghost predicate Destroyed(s: Snap, t: Snap, root: nat) {
    && t.owner.Keys == s.owner.Keys
    && (forall k :: k in t.at <==> k in s.at && k.root != root)
    && (forall k :: k in t.at ==> t.at[k] == s.at[k])
    && (forall r: nat, v: nat {:trigger View(t, r, v)} :: View(t, r, v) == if r == root then ZERO else View(s, r, v))
    && (forall p :: p in s.owner ==> t.owner[p] == if BelongsTo(s.owner[p], root) then Free else s.owner[p])
    && (forall p :: p !in s.owner || t.owner[p] == s.owner[p] ==> SameData(s.data, t.data, p))
  }

  ghost predicate Unmapped(s: Snap, root: nat, from: nat, n: nat) {
    forall v: nat {:trigger View(s, root, v)} :: from <= v < from + n ==> !View(s, root, v).v
  }

  /** From the end of sz bytes up, nothing is mapped but the kernel's two pages. */
  ghost predicate Within(s: Snap, root: nat, sz: nat) {
    forall v: nat {:trigger View(s, root, v)} :: v >= Pages(sz) && v != TRAMPOLINE && v != TRAPFRAME ==>
      !View(s, root, v).v
  }

  lemma WithinGrown(s: Snap, t: Snap, root: nat, oldsz: nat, newsz: nat)
    requires Within(s, root, oldsz) && oldsz <= newsz && Extended(root, s, t, Pages(oldsz), Pages(newsz) - Pages(oldsz))
    ensures Within(t, root, newsz)
  {
    forall v: nat | v >= Pages(newsz) && v != TRAMPOLINE && v != TRAPFRAME ensures !View(t, root, v).v {
      assert View(t, root, v) == View(s, root, v);
    }
  }

  lemma WithinShrunk(s: Snap, t: Snap, root: nat, oldsz: nat, newsz: nat)
    requires Within(s, root, oldsz) && newsz <= oldsz
    requires Dropped(s, t, root, Pages(newsz), Pages(oldsz) - Pages(newsz), true)
    ensures Within(t, root, newsz)
  {
    forall v: nat | v >= Pages(newsz) && v != TRAMPOLINE && v != TRAPFRAME ensures !View(t, root, v).v {
      assert View(t, root, v) == if v < Pages(oldsz) then ZERO else View(s, root, v);
    }
  }

  /** The room above sz that uvmalloc wants is there. */
  lemma WithinRoom(s: Snap, root: nat, sz: nat, n: nat)
    requires Within(s, root, sz) && Pages(sz) + n <= TRAPFRAME
    ensures Unmapped(s, root, Pages(sz), n)
  {
  }

  lemma SubtreeOfTop(s: Snap, root: nat)
    requires Tree(s.ptes, s.at)
    ensures forall j :: j in Subtree(s.at, Top(root)) <==> j in s.at && j.root == root
  {
    forall j | j in s.at ensures Under(j, Top(root)) <==> j.root == root {
      if j.root == root {
        UnderTop(s.ptes, s.at, j);
      } else {
        UnderRoot(j, Top(root));
      }
    }
  }

  lemma {:induction false} UnderRoot(j: Key, k: Key)
    ensures Under(j, k) ==> j.root == k.root
    decreases k.level - j.level
  {
    if j != k && j.level < k.level {
      UnderRoot(Parent(j), k);
    }
  }

  lemma BareWhenUnmapped(s: Snap, root: nat)
    requires Tree(s.ptes, s.at) && forall v: nat :: !View(s, root, v).v
    ensures Bare(s.ptes, s.at, Top(root))
  {
    SubtreeOfTop(s, root);
    forall j | j in s.at && Under(j, Top(root))
      ensures NodeOk(s.ptes, s.at, j) && (j.level == 0 ==> s.ptes[s.at[j]] == Empty())
    {
      assert j in Subtree(s.at, Top(root));
      NodeFacts(s.ptes, s.at, j);
      if j.level == 0 {
        forall x | 0 <= x < ENTRIES ensures s.ptes[s.at[j]][x] == ZERO {
          var v := j.prefix * ENTRIES + x;
          assert v / ENTRIES == j.prefix && v % ENTRIES == x;
          assert Low(root, v) == j;
          assert !View(s, root, v).v;
          assert LeafOrZero(s.ptes[s.at[j]][x]);
        }
      }
    }
  }

  lemma TreeWithout(s: Snap, t: Snap, root: nat)
    requires Tree(s.ptes, s.at) && Stripped(s, t, Subtree(s.at, Top(root)), Top(root)) && Top(root) in s.at
    ensures Tree(t.ptes, t.at)
    ensures forall k :: k in t.at <==> k in s.at && k.root != root
    ensures forall r: nat, v: nat :: View(t, r, v) == if r == root then ZERO else View(s, r, v)
  {
    SubtreeOfTop(s, root);
    forall j | j in t.at ensures NodeOk(t.ptes, t.at, j) {
      NodeFacts(s.ptes, s.at, j);
    }
    forall r: nat, v: nat ensures View(t, r, v) == if r == root then ZERO else View(s, r, v) {
      var k := Low(r, v);
      if k in t.at {
        assert SamePage(s.ptes, t.ptes, s.at[k]);
      }
    }
  }

  lemma RolesAfter(s: Snap, t: Snap, u: Snap, root: nat, n: nat, p: nat)
    requires Leaves(s) && Dropped(s, t, root, 0, n, true) && p in s.owner
    requires forall v: nat :: v >= n ==> !View(s, root, v).v
    requires Stripped(t, u, Subtree(t.at, Top(root)), Top(root))
    requires forall j :: j in Subtree(t.at, Top(root)) <==> j in t.at && j.root == root
    requires t.owner[p].Node? ==> t.owner[p].k in t.at
    ensures u.owner[p] == if BelongsTo(s.owner[p], root) then Free else s.owner[p]
    ensures u.owner[p] == s.owner[p] ==> t.owner[p] == s.owner[p]
  {
    if s.owner[p].Mapped? {
      assert View(s, s.owner[p].root, s.owner[p].v).v;
    }
  }

  lemma DestroyedBoth(s: Snap, t: Snap, u: Snap, root: nat, n: nat)
    requires Leaves(s) && Dropped(s, t, root, 0, n, true) && (forall v: nat :: v >= n ==> !View(s, root, v).v)
    requires Tree(t.ptes, t.at) && Top(root) in t.at && Stripped(t, u, Subtree(t.at, Top(root)), Top(root))
    requires forall p :: p in t.owner && t.owner[p].Node? ==> t.owner[p].k in t.at
    ensures Tree(u.ptes, u.at) && Destroyed(s, u, root)
  {
    hide Tree, Leaves, Subtree;
    TreeWithout(t, u, root);
    SubtreeOfTop(t, root);
    forall p | p in s.owner
      ensures u.owner[p] == if BelongsTo(s.owner[p], root) then Free else s.owner[p]
      ensures u.owner[p] == s.owner[p] ==> t.owner[p] == s.owner[p]
    {
      RolesAfter(s, t, u, root, n, p);
    }
  }

  lemma DestroyedLeaves(s: Snap, t: Snap, root: nat)
    requires Leaves(s) && Destroyed(s, t, root)
    ensures Leaves(t)
  {
    forall r: nat, v: nat | v < TRAPFRAME && View(t, r, v).v
      ensures View(t, r, v).ppn in t.owner && t.owner[View(t, r, v).ppn] == Mapped(r, v)
    {
      assert View(t, r, v) == View(s, r, v);
    }
  }

  lemma BooksNodes(owner: Owners, free: seq<nat>, at: Nodes)
    requires Books(owner, free, at)
    ensures forall p :: p in owner && owner[p].Node? ==> owner[p].k in at
  {
  }

  /** uvmfree: with every mapping below sz, all pages of the table are free afterwards. */
  method UvmFree(m: Machine, root: nat, sz: nat)
    requires m.Valid() && Top(root) in m.at && sz <= MAXSIZE
    requires Within(m.Now(), root, sz) && !View(m.Now(), root, TRAMPOLINE).v && !View(m.Now(), root, TRAPFRAME).v
    modifies m
    ensures m.Valid() && Destroyed(old(m.Now()), m.Now(), root)
  {
    hide Tree, Books, Leaves, Dropped, Stripped, Bare, Subtree, Destroyed;
    if sz > 0 {
      m.Unmap(root, 0, Pages(sz), true);
    } else {
      DroppedNone(m.Now(), root, 0, true);
    }
    ghost var t := m.Now();
    DroppedAll(old(m.Now()), t, root, Pages(sz));
    BareWhenUnmapped(t, root);
    TopIsRoot(m.ptes, m.at, root);
    BooksNodes(m.owner, m.free, m.at);
    m.FreeWalk(root, Top(root));
    DestroyedBoth(old(m.Now()), t, m.Now(), root, Pages(sz));
    DestroyedLeaves(old(m.Now()), m.Now(), root);
  }

  lemma DroppedAll(s: Snap, t: Snap, root: nat, n: nat)
    requires Dropped(s, t, root, 0, n, true) && forall v: nat :: v >= n ==> !View(s, root, v).v
    ensures t.at == s.at && forall v: nat :: !View(t, root, v).v
  {
    forall v: nat ensures !View(t, root, v).v {
      assert View(t, root, v) == if v < n then ZERO else View(s, root, v);
    }
  }

  // ---------------------------------------------------------------- growing and shrinking

  /** uvmdealloc */
  method UvmDealloc(m: Machine, root: nat, oldsz: nat, newsz: nat) returns (sz: nat)
    requires m.Valid() && Top(root) in m.at && oldsz <= MAXSIZE
    modifies m
    ensures m.Valid() && sz == (if newsz < oldsz then newsz else oldsz)
    ensures Dropped(old(m.Now()), m.Now(), root, Pages(sz), Pages(oldsz) - Pages(sz), true)
    ensures old(Within(m.Now(), root, oldsz)) ==> Within(m.Now(), root, sz)
  {
    hide Tree, Books, Leaves, Dropped, Within;
    DroppedNone(m.Now(), root, Pages(if newsz < oldsz then newsz else oldsz), true);
    if newsz >= oldsz {
      return oldsz;
    }
    if Pages(newsz) < Pages(oldsz) {
      m.Unmap(root, Pages(newsz), Pages(oldsz) - Pages(newsz), true);
    }
    if old(Within(m.Now(), root, oldsz)) {
      WithinShrunk(old(m.Now()), m.Now(), root, oldsz, newsz);
    }
    return newsz;
  }

  /** Page u of root is mapped with perm to a page that was free in s and now holds bytes. */
  ghost predicate FreshPage(s: Snap, t: Snap, root: nat, u: nat, perm: Perm, bytes: Bytes) {
    var e := View(t, root, u);
    && e.v && e.perm == perm && e.ppn in s.owner && s.owner[e.ppn] == Free
    && e.ppn in t.data && t.data[e.ppn] == bytes
  }

  lemma FreshKept(s: Snap, t: Snap, w: Snap, root: nat, u: nat, perm: Perm, bytes: Bytes, v: nat, n: nat)
    requires FreshPage(s, t, root, u, perm, bytes) && Extended(root, t, w, v, n)
    requires !(v <= u < v + n) && Leaves(t) && u < TRAPFRAME
    ensures FreshPage(s, w, root, u, perm, bytes)
  {
    assert View(w, root, u) == View(t, root, u);
    assert SameData(t.data, w.data, View(t, root, u).ppn);
  }

  lemma FreshSince(s: Snap, t: Snap, w: Snap, root: nat, u: nat, perm: Perm, bytes: Bytes, v: nat, n: nat)
    requires Extended(root, s, t, v, n) && FreshPage(t, w, root, u, perm, bytes)
    ensures FreshPage(s, w, root, u, perm, bytes)
  {
  }

  /** Undoing an extension leaves nothing behind but tables. */
  lemma ExtendedUndone(root: nat, s: Snap, t: Snap, u: Snap, v: nat, n: nat)
    requires Extended(root, s, t, v, n) && Dropped(t, u, root, v, n, true)
    requires forall x: nat :: v <= x < v + n ==> View(s, root, x) == ZERO
    requires Leaves(s)
    ensures Extended(root, s, u, v, 0)
  {
    forall r: nat, x: nat ensures View(u, r, x) == View(s, r, x) {
      assert View(u, r, x) == if r == root && v <= x < v + n then ZERO else View(t, r, x);
    }
    forall p | p in s.owner && s.owner[p] != Free ensures u.owner[p] == s.owner[p] && SameData(s.data, u.data, p) {
      assert t.owner[p] == s.owner[p];
      if s.owner[p].Mapped? {
        assert View(s, s.owner[p].root, s.owner[p].v).v;
      }
    }
  }

  /**
   uvmalloc. On success the new range is mapped to fresh zeroed pages; on failure the
   flat view and every page in use are as before.
   */
  method UvmAlloc(m: Machine, root: nat, oldsz: nat, newsz: nat, w: bool, x: bool) returns (sz: nat, ghost ok: bool)
    requires m.Valid() && Top(root) in m.at && newsz <= MAXSIZE
    requires Unmapped(m.Now(), root, Pages(oldsz), if newsz < oldsz then 0 else Pages(newsz) - Pages(oldsz))
    modifies m
    ensures m.Valid()
    ensures newsz < oldsz ==> ok && sz == oldsz && m.Now() == old(m.Now())
    ensures newsz >= oldsz && ok ==>
      sz == newsz && Extended(root, old(m.Now()), m.Now(), Pages(oldsz), Pages(newsz) - Pages(oldsz))
    ensures newsz >= oldsz && ok ==> forall u: nat :: Pages(oldsz) <= u < Pages(newsz) ==>
      FreshPage(old(m.Now()), m.Now(), root, u, Perm(true, w, x, true), ZeroPage())
    ensures !ok ==> sz == 0 && Extended(root, old(m.Now()), m.Now(), Pages(oldsz), 0)
    ensures old(Within(m.Now(), root, oldsz)) ==> Within(m.Now(), root, if ok then sz else oldsz)
  {
    hide Tree, Books, Leaves, Extended, FreshPage, ZeroPage, Within;
    if newsz < oldsz {
      return oldsz, true;
    }
    var first, count := Pages(oldsz), Pages(newsz) - Pages(oldsz);
    ExtendedSelf(root, m.Now(), first);
    for i := 0 to count
      invariant m.Valid() && Top(root) in m.at && Extended(root, old(m.Now()), m.Now(), first, i)
      invariant forall u: nat :: first <= u < first + i ==>
        FreshPage(old(m.Now()), m.Now(), root, u, Perm(true, w, x, true), ZeroPage())
    {
      ghost var t := m.Now();
      OutsideKept(root, old(m.Now()), t, first, i, first + i);
      var p, got := m.AllocMap(root, first + i, Perm(true, w, x, true), ZeroPage());
      if !got {
        ExtendedMore(root, old(m.Now()), t, m.Now(), first, i, 0);
        Undo(m, root, first, i, old(m.Now()));
        if old(Within(m.Now(), root, oldsz)) {
          WithinGrown(old(m.Now()), m.Now(), root, oldsz, oldsz);
        }
        return 0, false;
      }
      FreshStep(old(m.Now()), t, m.Now(), root, first, i, Perm(true, w, x, true), ZeroPage());
      ExtendedMore(root, old(m.Now()), t, m.Now(), first, i, 1);
    }
    if old(Within(m.Now(), root, oldsz)) {
      WithinGrown(old(m.Now()), m.Now(), root, oldsz, newsz);
    }
    return newsz, true;
  }

  /** uvmdealloc(pagetable, a, oldsz) on uvmalloc's way out. */
  method Undo(m: Machine, root: nat, first: nat, n: nat, ghost s: Snap)
    requires m.Valid() && Top(root) in m.at && first + n <= TRAPFRAME && Leaves(s)
    requires Extended(root, s, m.Now(), first, n) && Unmapped(s, root, first, n)
    modifies m
    ensures m.Valid() && Extended(root, s, m.Now(), first, 0)
  {
    hide Tree, Books, Leaves, Extended, Dropped;
    ghost var t := m.Now();
    m.Unmap(root, first, n, true);
    forall x: nat | first <= x < first + n ensures View(s, root, x) == ZERO {
    }
    ExtendedUndone(root, s, t, m.Now(), first, n);
  }

  lemma ExtendedSelf(root: nat, s: Snap, v: nat)
    ensures Extended(root, s, s, v, 0) && Extended(root, s, s, v, 1)
  {
  }

  lemma OutsideKept(root: nat, s: Snap, t: Snap, v: nat, n: nat, x: nat)
    requires Extended(root, s, t, v, n) && !(v <= x < v + n)
    ensures View(t, root, x) == View(s, root, x)
  {
  }

  lemma FreshStep(s: Snap, t: Snap, w: Snap, root: nat, first: nat, i: nat, perm: Perm, bytes: Bytes)
    requires Extended(root, s, t, first, i) && Extended(root, t, w, first + i, 1) && Leaves(t) && first + i < TRAPFRAME
    requires forall u: nat :: first <= u < first + i ==> FreshPage(s, t, root, u, perm, bytes)
    requires FreshPage(t, w, root, first + i, perm, bytes)
    ensures forall u: nat :: first <= u < first + i + 1 ==> FreshPage(s, w, root, u, perm, bytes)
  {
    forall u: nat | first <= u < first + i + 1 ensures FreshPage(s, w, root, u, perm, bytes) {
      if u < first + i {
        FreshKept(s, t, w, root, u, perm, bytes, first + i, 1);
      } else {
        FreshSince(s, t, w, root, u, perm, bytes, first, i);
      }
    }
  }

  // ---------------------------------------------------------------- fork and guard pages

  /** Page u of child is a copy, on a page of its own, of page u of parent, or both are unmapped. */
  ghost predicate Copied(s: Snap, t: Snap, parent: nat, child: nat, u: nat) {
    var e := View(s, parent, u);
    if e.v then e.ppn in s.data && FreshPage(s, t, child, u, e.perm, s.data[e.ppn]) else !View(t, child, u).v
  }

  lemma CopiedStep(s: Snap, t: Snap, w: Snap, parent: nat, child: nat, i: nat)
    requires Extended(child, s, t, 0, i) && Extended(child, t, w, i, 1) && Leaves(t) && i < TRAPFRAME && Leaves(s)
    requires forall u: nat :: u < i ==> Copied(s, t, parent, child, u)
    requires var e := View(s, parent, i);
      if e.v then e.ppn in s.data && FreshPage(t, w, child, i, e.perm, s.data[e.ppn]) else !View(w, child, i).v
    ensures forall u: nat :: u < i + 1 ==> Copied(s, w, parent, child, u)
  {
    hide Leaves, Extended, FreshPage;
    forall u: nat | u < i + 1 ensures Copied(s, w, parent, child, u) {
      var e := View(s, parent, u);
      assert u < i ==> Copied(s, t, parent, child, u);
      if u == i {
        if e.v {
          FreshSince(s, t, w, child, u, e.perm, s.data[e.ppn], 0, i);
        }
      } else if e.v {
        FreshKept(s, t, w, child, u, e.perm, s.data[e.ppn], i, 1);
      } else {
        OutsideKept(child, t, w, i, 1, u);
      }
    }
  }

  /** The parent's page i is as it was when the copy began. */
  lemma ParentKept(s: Snap, t: Snap, parent: nat, child: nat, i: nat)
    requires Extended(child, s, t, 0, i) && Leaves(s) && parent != child && i < TRAPFRAME
    ensures View(t, parent, i) == View(s, parent, i)
    ensures var e := View(s, parent, i); e.v ==> e.ppn in s.data && e.ppn in t.data && t.data[e.ppn] == s.data[e.ppn]
  {
    var e := View(s, parent, i);
    if e.v {
      assert s.owner[e.ppn] == Mapped(parent, i);
      assert SameData(s.data, t.data, e.ppn);
    }
  }

  /** uvmcopy */
  method UvmCopy(m: Machine, parent: nat, child: nat, sz: nat) returns (ok: bool)
    requires m.Valid() && Top(parent) in m.at && Top(child) in m.at && parent != child && sz <= MAXSIZE
    requires Unmapped(m.Now(), child, 0, Pages(sz))
    modifies m
    ensures m.Valid()
    ensures Extended(child, old(m.Now()), m.Now(), 0, if ok then Pages(sz) else 0)
    ensures ok ==> forall u: nat :: u < Pages(sz) ==> Copied(old(m.Now()), m.Now(), parent, child, u)
    ensures old(Within(m.Now(), child, 0)) ==> Within(m.Now(), child, if ok then sz else 0)
  {
    hide Tree, Books, Leaves, Extended, FreshPage, Copied, Within;
    ghost var s := m.Now();
    ExtendedSelf(child, s, 0);
    for i := 0 to Pages(sz)
      invariant m.Valid() && Top(parent) in m.at && Top(child) in m.at && Extended(child, s, m.Now(), 0, i)
      invariant forall u: nat :: u < i ==> Copied(s, m.Now(), parent, child, u)
    {
      ghost var t := m.Now();
      ParentKept(s, t, parent, child, i);
      OutsideKept(child, s, t, 0, i, i);
      var n, found := m.Walk(parent, i, false);
      EntryOf(t, parent, i);
      if !found || !m.ptes[n][i % ENTRIES].v {
        ExtendedSelf(child, t, i);
        CopiedStep(s, t, t, parent, child, i);
        ExtendedMore(child, s, t, t, 0, i, 1);
      } else {
        var e := m.ptes[n][i % ENTRIES];
        var p, got := m.AllocMap(child, i, e.perm, m.data[e.ppn]);
        if !got {
          ExtendedMore(child, s, t, m.Now(), 0, i, 0);
          Undo(m, child, 0, i, s);
          if Within(s, child, 0) {
            WithinGrown(s, m.Now(), child, 0, 0);
          }
          return false;
        }
        FreshFrom(t, m.Now(), child, i, e.perm, t.data[e.ppn]);
        CopiedStep(s, t, m.Now(), parent, child, i);
        ExtendedMore(child, s, t, m.Now(), 0, i, 1);
      }
    }
    if Within(s, child, 0) {
      WithinGrown(s, m.Now(), child, 0, sz);
    }
    ok := true;
  }

  lemma FreshFrom(s: Snap, t: Snap, root: nat, u: nat, perm: Perm, bytes: Bytes)
    requires var e := View(t, root, u);
      && e.v && e.perm == perm && e.ppn in s.owner && s.owner[e.ppn] == Free
      && e.ppn in t.data && t.data[e.ppn] == bytes
    ensures FreshPage(s, t, root, u, perm, bytes)
  {
  }

  /** uvmclear; that a table exists for the page is what its panic demands. */
  method UvmClear(m: Machine, root: nat, v: nat)
    requires m.Valid() && Low(root, v) in m.at && Top(root) in m.at && v < MAXVPN
    modifies m
    ensures m.Valid() && m.owner == old(m.owner) && m.data == old(m.data) && m.at == old(m.at)
    ensures var e := View(old(m.Now()), root, v); ViewSet(old(m.Now()), m.Now(), root, v,
      e.(perm := e.perm.(u := false)))
  {
    hide Tree, Books, Leaves, ViewSet;
    EntryOf(m.Now(), root, v);
    var n, found := m.Walk(root, v, false);
    var e := m.ptes[n][v % ENTRIES];
    m.SetPte(n, root, v, e.(perm := e.perm.(u := false)));
    LeavesSet(old(m.Now()), m.Now(), root, v);
  }

  lemma LeavesSet(s: Snap, t: Snap, root: nat, v: nat)
    requires var e := View(s, root, v); ViewSet(s, t, root, v, e.(perm := e.perm.(u := false)))
    requires Leaves(s) && t.owner == s.owner && t.data == s.data
    ensures Leaves(t)
  {
    forall r: nat, x: nat ensures View(t, r, x).v == View(s, r, x).v && View(t, r, x).ppn == View(s, r, x).ppn {
    }
  }
}
