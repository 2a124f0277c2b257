/**
 uvmcreate of kernel/vm.c, and proc_pagetable and proc_freepagetable of kernel/proc.c: a
 process's table with its trampoline and trapframe.
 */
module ProcTable {
  import opened PageTable
  import opened UserMemory
  import CopyUser

  const KERNEL_RX := Perm(true, false, true, false)
  const KERNEL_RW := Perm(true, true, false, false)

  /** Every page is used as before, and each address space maps what it did. */
  ghost predicate Restored(s: Snap, t: Snap) {
    && t.owner == s.owner && t.at == s.at && ViewKept(s, t)
    && forall p :: p !in s.owner || s.owner[p] != Free ==> SameData(s.data, t.data, p)
  }

  /** A new table at root, of pages that were free; all else is as before. */
  ghost predicate Created(s: Snap, t: Snap, root: nat) {
    && t.owner.Keys == s.owner.Keys && Top(root) in t.at
    && (forall k :: k in s.at ==> k.root != root && k in t.at && t.at[k] == s.at[k])
    && (forall k :: k in t.at && k !in s.at ==> k.root == root)
    && (forall p :: p in s.owner && s.owner[p] != Free ==>
      t.owner[p] == s.owner[p] && !BelongsTo(s.owner[p], root) && SameData(s.data, t.data, p))
    && (forall p :: p in s.owner && t.owner[p] != s.owner[p] ==> t.owner[p].Node? && t.owner[p].k.root == root)
    && (forall p :: p !in s.owner ==> SameData(s.data, t.data, p))
    && (forall r: nat, v: nat {:trigger View(t, r, v)} :: r != root ==> View(t, r, v) == View(s, r, v))
  }

  /** Building a table and freeing it gives back every page. */
  lemma CreateDestroy(s: Snap, t: Snap, u: Snap, root: nat)
    requires Created(s, t, root) && Destroyed(t, u, root) && forall v: nat :: View(s, root, v) == ZERO
    ensures Restored(s, u)
  {
    assert u.at == s.at;
    forall p | p in s.owner ensures u.owner[p] == s.owner[p] {
    }
    assert u.owner == s.owner;
    forall r: nat, v: nat ensures View(u, r, v) == View(s, r, v) {
      assert r != root ==> View(t, r, v) == View(s, r, v);
    }
    forall p | p !in s.owner || s.owner[p] != Free ensures SameData(s.data, u.data, p) {
      assert SameData(s.data, t.data, p);
    }
  }

  lemma FreshRoot(s: Snap, free: seq<nat>, p: nat)
    requires Tree(s.ptes, s.at) && Books(s.owner, free, s.at) && p in s.owner && s.owner[p] == Free
    ensures forall k :: k in s.at ==> k.root != p
  {
    forall k | k in s.at ensures k.root != p {
      RootOf(s, k);
      assert s.owner[s.at[Top(k.root)]] == Node(Top(k.root));
    }
  }

  /** A node's root is itself a node. */
  lemma {:induction false} RootOf(s: Snap, k: Key)
    requires Tree(s.ptes, s.at) && k in s.at
    ensures Top(k.root) in s.at && s.at[Top(k.root)] == k.root
    decreases 2 - k.level
  {
    assert NodeOk(s.ptes, s.at, k);
    if k.level < 2 {
      RootOf(s, Parent(k));
    }
  }

  lemma RootTree(s: Snap, p: nat)
    requires Tree(s.ptes, s.at) && (forall k :: k in s.at ==> k.root != p && s.at[k] != p)
    ensures Tree(s.ptes[p := Empty()], s.at[Top(p) := p])
  {
    var ptes, at := s.ptes[p := Empty()], s.at[Top(p) := p];
    forall k | k in at ensures NodeOk(ptes, at, k) {
      if k == Top(p) {
        forall x | 0 <= x < ENTRIES ensures Points(at, k, x, ZERO) {
        }
      } else {
        assert NodeOk(s.ptes, s.at, k);
      }
    }
  }

  lemma RootView(s: Snap, t: Snap, p: nat)
    requires t.ptes == s.ptes[p := Empty()] && t.at == s.at[Top(p) := p]
    requires forall k :: k in s.at ==> k.root != p && s.at[k] != p
    ensures ViewKept(s, t) && forall v: nat :: View(t, p, v) == View(s, p, v) == ZERO
  {
    forall r: nat, v: nat ensures View(t, r, v) == View(s, r, v) {
    }
    forall v: nat ensures View(s, p, v) == ZERO {
    }
  }

  lemma CreatedRoot(s: Snap, t: Snap, p: nat)
    requires p in s.owner && s.owner[p] == Free && t.owner == s.owner[p := Node(Top(p))] && t.at == s.at[Top(p) := p]
    requires p in t.data && t.data == s.data[p := t.data[p]] && ViewKept(s, t)
    requires Leaves(s) && (forall k :: k in s.at ==> k.root != p)
    requires forall q :: q in s.owner && s.owner[q].Node? ==> s.owner[q].k in s.at
    requires forall v: nat :: View(s, p, v) == ZERO
    ensures Created(s, t, p)
  {
    forall q | q in s.owner && s.owner[q] != Free ensures !BelongsTo(s.owner[q], p) {
      if s.owner[q].Mapped? {
        assert View(s, s.owner[q].root, s.owner[q].v).v;
      }
    }
  }

  /** uvmcreate */
  method UvmCreate(m: Machine) returns (root: nat, ok: bool)
    requires m.Valid()
    modifies m
    ensures m.Valid()
    ensures ok ==>
      Created(old(m.Now()), m.Now(), root) &&
      (forall v: nat :: View(m.Now(), root, v) == View(old(m.Now()), root, v) == ZERO)
    ensures !ok ==> m.Now() == old(m.Now()) && m.free == old(m.free) == []
  {
    hide Tree, Books, Leaves, Created, ViewKept;
    ghost var s := m.Now();
    BooksNodes(m.owner, m.free, m.at);
    ghost var free := m.free;
    root, ok := m.Kalloc();
    if !ok {
      return;
    }
    FreshRoot(s, free, root);
    RootTree(s, root);
    BooksAddNode(m.owner, m.free, m.at, root, Top(root));
    m.ptes := m.ptes[root := Empty()];
    m.owner, m.at := m.owner[root := Node(Top(root))], m.at[Top(root) := root];
    assert s.owner[root := Held][root := Node(Top(root))] == s.owner[root := Node(Top(root))];
    RootView(s, m.Now(), root);
    CreatedRoot(s, m.Now(), root);
    CreatedLeaves(s, m.Now(), root);
  }

  lemma CreatedLeaves(s: Snap, t: Snap, root: nat)
    requires Created(s, t, root) && Leaves(s) && ViewKept(s, t)
    ensures Leaves(t)
  {
  }

  // ---------------------------------------------------------------- trampoline and trapframe

  /** Pages that became nodes became nodes of this table. */
  lemma GrewNodes(root: nat, t: Snap, free: seq<nat>, u: Snap, free': seq<nat>)
    requires Grew(root, t, u) && Books(t.owner, free, t.at) && Books(u.owner, free', u.at)
    ensures forall p :: p in t.owner && u.owner[p] != t.owner[p] ==> u.owner[p].Node? && u.owner[p].k.root == root
  {
    forall p | p in t.owner && u.owner[p] != t.owner[p] ensures u.owner[p].Node? && u.owner[p].k.root == root {
      var k := u.owner[p].k;
      assert k !in t.at;
    }
  }

  lemma CreatedMore(s: Snap, t: Snap, u: Snap, root: nat, v: nat, n: nat, p: nat, perm: Perm)
    requires Created(s, t, root) && Grew(root, t, u) && ViewMapped(t, u, root, v, n, p, perm)
    requires forall p :: p in t.owner && u.owner[p] != t.owner[p] ==> u.owner[p].Node? && u.owner[p].k.root == root
    ensures Created(s, u, root)
  {
    forall r: nat, x: nat | r != root ensures View(u, r, x) == View(s, r, x) {
      assert View(u, r, x) == View(t, r, x);
    }
  }

  lemma LeavesHigh(root: nat, t: Snap, u: Snap, v: nat, n: nat, p: nat, perm: Perm)
    requires Leaves(t) && Grew(root, t, u) && ViewMapped(t, u, root, v, n, p, perm) && v >= TRAPFRAME
    ensures Leaves(u)
  {
    forall r: nat, x: nat | x < TRAPFRAME && View(u, r, x).v
      ensures View(u, r, x).ppn in u.owner && u.owner[View(u, r, x).ppn] == Mapped(r, x)
    {
      assert View(u, r, x) == View(t, r, x);
    }
    forall q | q in u.owner && u.owner[q].Mapped?
      ensures u.owner[q].v < TRAPFRAME && View(u, u.owner[q].root, u.owner[q].v).v
      ensures View(u, u.owner[q].root, u.owner[q].v).ppn == q
    {
      assert t.owner[q] == u.owner[q];
    }
  }

  /** mappages of one kernel page above the user's memory. */
  method MapHigh(m: Machine, root: nat, v: nat, p: nat, perm: Perm, ghost s: Snap) returns (ok: bool)
    requires m.Valid() && TRAPFRAME <= v < MAXVPN && !View(m.Now(), root, v).v && (perm.r || perm.w || perm.x)
    requires Top(root) in m.at && Created(s, m.Now(), root)
    modifies m
    ensures m.Valid() && Top(root) in m.at && Created(s, m.Now(), root)
    ensures if ok then ViewSet(old(m.Now()), m.Now(), root, v, Pte(p, true, perm)) else ViewKept(old(m.Now()), m.Now())
  {
    hide Tree, Books, Leaves, Created, ViewMapped, Grew;
    ghost var t, free := m.Now(), m.free;
    ghost var done;
    ok, done := m.MapPages(root, v, 1, p, perm);
    GrewNodes(root, t, free, m.Now(), m.free);
    CreatedMore(s, t, m.Now(), root, v, done, p, perm);
    LeavesHigh(root, t, m.Now(), v, done, p, perm);
    CreatedTop(s, m.Now(), root);
    if ok {
      MappedSet(t, m.Now(), root, v, p, perm);
    } else {
      MappedNothing(t, m.Now(), root, v, p, perm);
    }
  }

  lemma CreatedTop(s: Snap, t: Snap, root: nat)
    requires Created(s, t, root)
    ensures Top(root) in t.at
  {
  }

  lemma MappedSet(s: Snap, t: Snap, root: nat, v: nat, p: nat, perm: Perm)
    requires ViewMapped(s, t, root, v, 1, p, perm)
    ensures ViewSet(s, t, root, v, Pte(p, true, perm))
  {
  }

  lemma CreatedDropped(s: Snap, t: Snap, u: Snap, root: nat, v: nat)
    requires Created(s, t, root) && Leaves(t) && Dropped(t, u, root, v, 1, false) && v >= TRAPFRAME
    ensures Created(s, u, root)
  {
    forall r: nat, x: nat | r != root ensures View(u, r, x) == View(s, r, x) {
      assert View(u, r, x) == View(t, r, x);
    }
  }

  /** What proc_pagetable maps: the trampoline and the trapframe, and nothing for the user. */
  ghost predicate Bootstrap(t: Snap, root: nat, tramp: nat, tf: nat) {
    forall v: nat {:trigger View(t, root, v)} :: View(t, root, v) ==
      if v == TRAMPOLINE then Pte(tramp, true, KERNEL_RX) else if v == TRAPFRAME then Pte(tf, true, KERNEL_RW) else ZERO
  }

  /** The user can reach neither, which is what copyin and copyout rely on. */
  lemma BootstrapPrivate(t: Snap, root: nat, tramp: nat, tf: nat)
    requires Bootstrap(t, root, tramp, tf)
    ensures CopyUser.Private(t, root) && Within(t, root, 0)
  {
  }

  /** uvmfree(pagetable, 0) on proc_pagetable's way out. */
  method GiveUp(m: Machine, root: nat, ghost s: Snap)
    requires m.Valid() && Top(root) in m.at && Created(s, m.Now(), root)
    requires (forall v: nat :: !View(m.Now(), root, v).v) && (forall v: nat :: View(s, root, v) == ZERO)
    modifies m
    ensures m.Valid() && Restored(s, m.Now())
  {
    hide Tree, Books, Leaves, Created, Destroyed, Restored;
    ghost var t := m.Now();
    UvmFree(m, root, 0);
    CreateDestroy(s, t, m.Now(), root);
  }

  /** proc_pagetable: success, or every page as it was. */
  method ProcPagetable(m: Machine, tramp: nat, tf: nat) returns (root: nat, ok: bool)
    requires m.Valid()
    modifies m
    ensures m.Valid()
    ensures ok ==> Created(old(m.Now()), m.Now(), root) && Bootstrap(m.Now(), root, tramp, tf)
    ensures !ok ==> Restored(old(m.Now()), m.Now())
  {
    hide Tree, Books, Leaves, Created, Restored, Bootstrap, Dropped;
    ghost var s := m.Now();
    root, ok := UvmCreate(m);
    if !ok {
      RestoredSelf(s);
      return;
    }
    CreatedTop(s, m.Now(), root);
    ghost var t := m.Now();
    ok := MapHigh(m, root, TRAMPOLINE, tramp, KERNEL_RX, s);
    if !ok {
      GiveUp(m, root, s);
      return;
    }
    ghost var u := m.Now();
    ok := MapHigh(m, root, TRAPFRAME, tf, KERNEL_RW, s);
    if !ok {
      ghost var w := m.Now();
      m.Unmap(root, TRAMPOLINE, 1, false);
      CreatedDropped(s, w, m.Now(), root, TRAMPOLINE);
      NothingLeft(t, u, w, m.Now(), root, Pte(tramp, true, KERNEL_RX));
      CreatedTop(s, m.Now(), root);
      GiveUp(m, root, s);
      return;
    }
    Bootstrapped(t, u, m.Now(), root, tramp, tf);
  }

  lemma RestoredSelf(s: Snap)
    ensures Restored(s, s)
  {
  }

  lemma NothingLeft(t: Snap, u: Snap, w: Snap, x: Snap, root: nat, e: Pte)
    requires (forall v: nat :: View(t, root, v) == ZERO) && ViewSet(t, u, root, TRAMPOLINE, e) && ViewKept(u, w)
    requires Dropped(w, x, root, TRAMPOLINE, 1, false)
    ensures forall v: nat :: !View(x, root, v).v
  {
    forall v: nat ensures !View(x, root, v).v {
      assert View(x, root, v) == if v == TRAMPOLINE then ZERO else View(w, root, v);
      assert View(w, root, v) == View(u, root, v);
    }
  }

  lemma Bootstrapped(t: Snap, u: Snap, w: Snap, root: nat, tramp: nat, tf: nat)
    requires (forall v: nat :: View(t, root, v) == ZERO)
    requires ViewSet(t, u, root, TRAMPOLINE, Pte(tramp, true, KERNEL_RX))
    requires ViewSet(u, w, root, TRAPFRAME, Pte(tf, true, KERNEL_RW))
    ensures Bootstrap(w, root, tramp, tf)
  {
    forall v: nat ensures View(w, root, v) ==
      if v == TRAMPOLINE then Pte(tramp, true, KERNEL_RX) else if v == TRAPFRAME then Pte(tf, true, KERNEL_RW) else ZERO
    {
      assert View(u, root, v) == if v == TRAMPOLINE then Pte(tramp, true, KERNEL_RX) else View(t, root, v);
    }
  }

  // ---------------------------------------------------------------- freeing it all

  lemma DestroyedAfter(s: Snap, t: Snap, u: Snap, root: nat, v: nat)
    requires Leaves(s) && Dropped(s, t, root, v, 1, false) && v >= TRAPFRAME && Destroyed(t, u, root)
    ensures Destroyed(s, u, root)
  {
    forall r: nat, x: nat ensures View(u, r, x) == if r == root then ZERO else View(s, r, x) {
      assert r != root ==> View(t, r, x) == View(s, r, x);
    }
    forall p | p !in s.owner || u.owner[p] == s.owner[p] ensures SameData(s.data, u.data, p) {
      assert SameData(s.data, t.data, p);
    }
  }

  /** proc_freepagetable; sz bounds the user's mappings. The trapframe's page stays with its holder. */
  method ProcFreePagetable(m: Machine, root: nat, sz: nat)
    requires m.Valid() && Top(root) in m.at && sz <= MAXSIZE
    requires Within(m.Now(), root, sz)
    modifies m
    ensures m.Valid() && Destroyed(old(m.Now()), m.Now(), root)
  {
    hide Tree, Books, Leaves, Dropped, Destroyed;
    ghost var s := m.Now();
    m.Unmap(root, TRAMPOLINE, 1, false);
    ghost var t := m.Now();
    DroppedNodes(s, t, root, TRAMPOLINE);
    m.Unmap(root, TRAPFRAME, 1, false);
    ghost var u := m.Now();
    DroppedNodes(t, u, root, TRAPFRAME);
    UserOnly(s, t, u, root, sz);
    UvmFree(m, root, sz);
    DestroyedAfter(t, u, m.Now(), root, TRAPFRAME);
    DestroyedAfter(s, t, m.Now(), root, TRAMPOLINE);
  }

  lemma DroppedNodes(s: Snap, t: Snap, root: nat, v: nat)
    requires Dropped(s, t, root, v, 1, false)
    ensures t.at == s.at
  {
  }

  lemma UserOnly(s: Snap, t: Snap, u: Snap, root: nat, sz: nat)
    requires Dropped(s, t, root, TRAMPOLINE, 1, false)
    requires Dropped(t, u, root, TRAPFRAME, 1, false) && Within(s, root, sz)
    ensures Within(u, root, sz) && !View(u, root, TRAMPOLINE).v && !View(u, root, TRAPFRAME).v
  {
    forall v: nat ensures View(u, root, v) == if v == TRAPFRAME || v == TRAMPOLINE then ZERO else View(s, root, v) {
      assert View(u, root, v) == if v == TRAPFRAME then ZERO else View(t, root, v);
      assert View(t, root, v) == if v == TRAMPOLINE then ZERO else View(s, root, v);
    }
  }
}
