/**
 The Sv39 page tables of kernel/vm.c and the page allocator of kernel/kalloc.c
 (section 4.4 of the RISC-V Privileged Architecture, version 1.12).

 Pages are named by their physical page number and virtual pages by theirs. Entries are
 decoded into their fields; Represents says which word stands for which entry.
 */
module PageTable {

  const ENTRIES: nat := 512
  const PGSIZE: nat := 4096
  const MAXVPN: nat := 0x400_0000        // MAXVA / PGSIZE
  const TRAMPOLINE: nat := MAXVPN - 1
  const TRAPFRAME: nat := MAXVPN - 2

  // ---------------------------------------------------------------- entries

  datatype Perm = Perm(r: bool, w: bool, x: bool, u: bool)

  /** A page-table entry, decoded: the page it names, its valid bit and its permissions. */
  datatype Pte = Pte(ppn: nat, v: bool, perm: Perm)

  const NOPERM := Perm(false, false, false, false)
  const ZERO := Pte(0, false, NOPERM)

  /** Some of R, W and X is set: the entry maps a page instead of pointing at a table. */
  predicate Leaf(e: Pte) {
    e.perm.r || e.perm.w || e.perm.x
  }

  // The same on the 64-bit words of kernel/riscv.h.
  function PA2PTE(pa: bv64): bv64 { (pa >> 12) << 10 }
  function PTE2PA(pte: bv64): bv64 { (pte >> 10) << 12 }
  function PTE_FLAGS(pte: bv64): bv64 { pte & 0x3FF }

  /** An address survives the trip through an entry exactly when it is page aligned; the flags always do. */
  lemma PteRoundTrip(pa: bv64, flags: bv64)
    requires flags < 0x400
    ensures PTE2PA(PA2PTE(pa) | flags) == pa <==> pa & 0xFFF == 0
    ensures PTE_FLAGS(PA2PTE(pa) | flags) == flags
  {
  }

  /** The permission bits that mappages is given. */
  function PermBits(perm: Perm): bv64 {
    (if perm.r then 0x2 else 0) | (if perm.w then 0x4 else 0)
      | (if perm.x then 0x8 else 0) | (if perm.u then 0x10 else 0)
  }

  predicate SameBits(pte: bv64, v: bool, perm: Perm) {
    && (pte & 0x1 != 0 <==> v) && (pte & 0x2 != 0 <==> perm.r) && (pte & 0x4 != 0 <==> perm.w)
    && (pte & 0x8 != 0 <==> perm.x) && (pte & 0x10 != 0 <==> perm.u)
  }

  function PageNumber(pa: bv64): nat { (pa >> 12) as nat }

  /** The word stands for the decoded entry. */
  predicate Represents(pte: bv64, e: Pte) {
    PageNumber(PTE2PA(pte)) == e.ppn && SameBits(pte, e.v, e.perm)
  }

  lemma PermBitsSame(perm: Perm)
    ensures PermBits(perm) | 0x1 < 0x400 && SameBits(PermBits(perm) | 0x1, true, perm)
  {
  }

  lemma FlagBits(pte: bv64, v: bool, perm: Perm)
    ensures SameBits(PTE_FLAGS(pte), v, perm) ==> SameBits(pte, v, perm)
  {
  }

  /** The word that mappages and walk write for a page stands for the entry this model writes. */
  lemma PteOfPage(pa: bv64, perm: Perm)
    requires pa & 0xFFF == 0
    ensures Represents(PA2PTE(pa) | (PermBits(perm) | 0x1), Pte(PageNumber(pa), true, perm))
  {
    hide PTE2PA, PA2PTE, PTE_FLAGS, PermBits, SameBits, PageNumber;
    var flags := PermBits(perm) | 0x1;
    PermBitsSame(perm);
    PteRoundTrip(pa, flags);
    FlagBits(PA2PTE(pa) | flags, true, perm);
  }

  lemma PteClearUserBits(pte: bv64, v: bool, perm: Perm)
    requires SameBits(pte, v, perm)
    ensures PTE2PA(pte & 0xFFFF_FFFF_FFFF_FFEF) == PTE2PA(pte)
    ensures SameBits(pte & 0xFFFF_FFFF_FFFF_FFEF, v, perm.(u := false))
    ensures (pte & 0xFFFF_FFFF_FFFF_FFEF) | 0x10 == pte | 0x10
  {
  }

  /** uvmclear's update takes away the U bit and nothing else. */
  lemma PteClearUser(pte: bv64, e: Pte)
    requires Represents(pte, e)
    ensures Represents(pte & 0xFFFF_FFFF_FFFF_FFEF, e.(perm := e.perm.(u := false)))
  {
    hide PTE2PA, SameBits, PageNumber;
    PteClearUserBits(pte, e.v, e.perm);
  }

  // ---------------------------------------------------------------- the tree

  /**
   A page-table page: its table's root, its level, and the virtual page numbers it serves,
   without their last level*9 bits.
   */
  datatype Key = Key(root: nat, level: nat, prefix: nat)

  function Child(k: Key, x: nat): Key
    requires k.level > 0
  {
    Key(k.root, k.level - 1, k.prefix * ENTRIES + x)
  }

  function Parent(k: Key): Key {
    Key(k.root, k.level + 1, k.prefix / ENTRIES)
  }

  lemma ChildParent(k: Key, x: nat)
    requires k.level > 0 && x < ENTRIES
    ensures Parent(Child(k, x)) == k && Child(k, x).prefix % ENTRIES == x
  {
  }

  /** The node whose entries are leaves for v, and the two above it. */
  function Low(root: nat, v: nat): Key { Key(root, 0, v / ENTRIES) }
  function Mid(root: nat, v: nat): Key { Key(root, 1, v / ENTRIES / ENTRIES) }
  function Top(root: nat): Key { Key(root, 2, 0) }

  type Tables = map<nat, seq<Pte>>
  type Nodes = map<Key, nat>

  /** An entry above the last level points at a node exactly when that node exists. */
  ghost predicate NodeOk(ptes: Tables, at: Nodes, k: Key) {
    && k in at && k.level <= 2 && (k.level == 2 ==> k.prefix == 0 && at[k] == k.root)
    && at[k] in ptes && |ptes[at[k]]| == ENTRIES
    && (k.level < 2 ==> Parent(k) in at)
    && (if k.level == 0 then forall x :: 0 <= x < ENTRIES ==> LeafOrZero(ptes[at[k]][x])
        else forall x :: 0 <= x < ENTRIES ==> Points(at, k, x, ptes[at[k]][x]))
  }

  predicate LeafOrZero(e: Pte) {
    if e.v then Leaf(e) else e == ZERO
  }

  predicate Points(at: Nodes, k: Key, x: nat, e: Pte)
    requires k.level > 0
  {
    if e.v then Child(k, x) in at && e == Pte(at[Child(k, x)], true, NOPERM) else Child(k, x) !in at
  }

  ghost predicate Tree(ptes: Tables, at: Nodes) {
    && (forall k {:trigger NodeOk(ptes, at, k)} :: k in at ==> NodeOk(ptes, at, k))
    && (forall j, k :: j in at && k in at && at[j] == at[k] ==> j == k)
  }

  /** The last-level entry for virtual page v in the table at root, ZERO when there is none. */
  function Entry(ptes: Tables, at: Nodes, root: nat, v: nat): Pte {
    var k := Low(root, v);
    if k in at && at[k] in ptes && |ptes[at[k]]| == ENTRIES then ptes[at[k]][v % ENTRIES] else ZERO
  }

  /** The memory after writing entry x of page n. */
  function Store(ptes: Tables, n: nat, x: nat, e: Pte): Tables
    requires n in ptes && x < |ptes[n]|
  {
    var page: seq<Pte> := ptes[n][x := e];
    ptes[n := page]
  }

  /** Writing one last-level entry changes the flat view there and nowhere else. */
  lemma SetEntry(ptes: Tables, at: Nodes, root: nat, v: nat, e: Pte)
    requires Tree(ptes, at) && Low(root, v) in at && LeafOrZero(e)
    ensures at[Low(root, v)] in ptes && |ptes[at[Low(root, v)]]| == ENTRIES
    ensures var n := at[Low(root, v)];
      var ptes' := Store(ptes, n, v % ENTRIES, e);
      && Tree(ptes', at)
      && Entry(ptes', at, root, v) == e
      && forall r: nat, u: nat :: (r, u) != (root, v) ==> Entry(ptes', at, r, u) == Entry(ptes, at, r, u)
  {
    var low := Low(root, v);
    assert NodeOk(ptes, at, low);
    var n := at[low];
    var ptes' := Store(ptes, n, v % ENTRIES, e);
    forall k | k in at ensures NodeOk(ptes', at, k) {
      assert NodeOk(ptes, at, k);
    }
    forall r: nat, u: nat | (r, u) != (root, v) ensures Entry(ptes', at, r, u) == Entry(ptes, at, r, u) {
      var k := Low(r, u);
      if k in at && at[k] == n {
        assert k == low;
      }
    }
  }

  /** A zeroed page. */
  function Empty(): (page: seq<Pte>)
    ensures |page| == ENTRIES && forall i :: 0 <= i < ENTRIES ==> page[i] == ZERO
  {
    seq(ENTRIES, i => ZERO)
  }

  /** Nothing hangs below a node that does not exist. */
  lemma NoGrandchild(ptes: Tables, at: Nodes, c: Key, y: nat)
    requires Tree(ptes, at) && c !in at && 0 < c.level <= 2 && y < ENTRIES
    ensures Child(c, y) !in at
  {
    var d := Child(c, y);
    ChildParent(c, y);
    assert d !in at || NodeOk(ptes, at, d);
  }

  ghost predicate Linkable(ptes: Tables, at: Nodes, k: Key, x: nat, p: nat) {
    && Tree(ptes, at) && NodeOk(ptes, at, k) && k.level > 0 && x < ENTRIES && Child(k, x) !in at
    && forall j :: j in at ==> at[j] != p
  }

  function Link(ptes: Tables, at: Nodes, k: Key, x: nat, p: nat): Tables
    requires k in at && at[k] in ptes && at[k] != p && x < |ptes[at[k]]|
  {
    Store(ptes[p := Empty()], at[k], x, Pte(p, true, NOPERM))
  }

  lemma NewNodeOk(ptes: Tables, at: Nodes, k: Key, x: nat, p: nat)
    requires Linkable(ptes, at, k, x, p)
    ensures NodeOk(Link(ptes, at, k, x, p), at[Child(k, x) := p], Child(k, x))
  {
    var c := Child(k, x);
    var at' := at[c := p];
    ChildParent(k, x);
    if c.level > 0 {
      forall y | 0 <= y < ENTRIES ensures Points(at', c, y, ZERO) {
        NoGrandchild(ptes, at, c, y);
      }
    }
  }

  lemma OldNodeOk(ptes: Tables, at: Nodes, k: Key, x: nat, p: nat, j: Key)
    requires Linkable(ptes, at, k, x, p) && NodeOk(ptes, at, j)
    ensures NodeOk(Link(ptes, at, k, x, p), at[Child(k, x) := p], j)
  {
    hide Tree;
    var ptes', at' := Link(ptes, at, k, x, p), at[Child(k, x) := p];
    if j.level > 0 {
      forall y | 0 <= y < ENTRIES ensures Points(at', j, y, ptes'[at[j]][y]) {
        ChildParent(j, y);
        ChildParent(k, x);
        assert Points(at, j, y, ptes[at[j]][y]);
        assert at[j] == at[k] ==> j == k by { InjectiveNodes(ptes, at, j, k); }
      }
    } else {
      assert at[j] != at[k] by { InjectiveNodes(ptes, at, j, k); }
    }
  }

  lemma InjectiveNodes(ptes: Tables, at: Nodes, j: Key, k: Key)
    requires Tree(ptes, at) && j in at && k in at
    ensures at[j] == at[k] ==> j == k
  {
  }

  /** Linking an empty node below k leaves the flat view as it was. */
  lemma AddNode(ptes: Tables, at: Nodes, k: Key, x: nat, p: nat)
    requires Linkable(ptes, at, k, x, p)
    ensures Tree(Link(ptes, at, k, x, p), at[Child(k, x) := p])
    ensures SameView(ptes, at, Link(ptes, at, k, x, p), at[Child(k, x) := p])
  {
    var c := Child(k, x);
    var ptes', at' := Link(ptes, at, k, x, p), at[c := p];
    forall j | j in at' ensures NodeOk(ptes', at', j) {
      if j == c {
        NewNodeOk(ptes, at, k, x, p);
      } else {
        assert NodeOk(ptes, at, j);
        OldNodeOk(ptes, at, k, x, p, j);
      }
    }
    LinkKeepsView(ptes, at, k, x, p);
  }

  ghost predicate SameView(ptes: Tables, at: Nodes, ptes': Tables, at': Nodes) {
    forall r: nat, v: nat {:trigger Entry(ptes', at', r, v)} :: Entry(ptes', at', r, v) == Entry(ptes, at, r, v)
  }

  lemma LinkKeepsView(ptes: Tables, at: Nodes, k: Key, x: nat, p: nat)
    requires Linkable(ptes, at, k, x, p)
    ensures SameView(ptes, at, Link(ptes, at, k, x, p), at[Child(k, x) := p])
  {
    hide Tree;
    var ptes', at' := Link(ptes, at, k, x, p), at[Child(k, x) := p];
    forall r: nat, v: nat ensures Entry(ptes', at', r, v) == Entry(ptes, at, r, v) {
      var low := Low(r, v);
      if low in at {
        InjectiveNodes(ptes, at, low, k);
      }
    }
  }

  // ---------------------------------------------------------------- who owns each page

  /** The one use a page of the allocator has. Held pages belong to code outside the tables, such as a trapframe. */
  datatype Role = Free | Node(k: Key) | Mapped(root: nat, v: nat) | Held

  type Owners = map<nat, Role>

  /** The free list holds exactly the free pages, once each; node pages and nodes correspond. */
  ghost predicate Books(owner: Owners, free: seq<nat>, at: Nodes) {
    && (forall i :: 0 <= i < |free| ==> free[i] in owner && owner[free[i]] == Free)
    && (forall p :: p in owner && owner[p] == Free ==> p in free)
    && (forall i, j :: 0 <= i < j < |free| ==> free[i] != free[j])
    && (forall k :: k in at ==> at[k] in owner && owner[at[k]] == Node(k))
    && (forall p :: p in owner && owner[p].Node? ==> owner[p].k in at && at[owner[p].k] == p)
  }

  lemma BooksTake(owner: Owners, free: seq<nat>, at: Nodes)
    requires Books(owner, free, at) && |free| > 0
    ensures free[0] in owner && Books(owner[free[0] := Held], free[1..], at)
    ensures forall k :: k in at ==> at[k] != free[0]
  {
    var p := free[0];
    forall q | q in owner && q != p && owner[q] == Free ensures q in free[1..] {
      assert q in free;
    }
  }

  lemma BooksGive(owner: Owners, free: seq<nat>, at: Nodes, p: nat)
    requires Books(owner, free, at) && p in owner && owner[p] == Held
    ensures Books(owner[p := Free], [p] + free, at)
  {
    var free', owner' := [p] + free, owner[p := Free];
    forall q | q in owner' && owner'[q] == Free ensures q in free' {
      assert q != p ==> q in free;
    }
  }

  lemma BooksNew(owner: Owners, free: seq<nat>, at: Nodes, p: nat)
    requires Books(owner, free, at) && p !in owner
    ensures Books(owner[p := Held], free, at)
  {
  }

  lemma BooksAddNode(owner: Owners, free: seq<nat>, at: Nodes, p: nat, k: Key)
    requires Books(owner, free, at) && p in owner && owner[p] == Held && k !in at
    ensures Books(owner[p := Node(k)], free, at[k := p])
  {
  }

  function KeyAt(root: nat, v: nat, level: nat): Key {
    if level == 2 then Top(root) else if level == 1 then Mid(root, v) else Low(root, v)
  }

  function IndexAt(v: nat, level: nat): nat {
    if level == 2 then v / ENTRIES / ENTRIES else if level == 1 then v / ENTRIES % ENTRIES else v % ENTRIES
  }

  /** The contents of a page. */
  type Bytes = b: seq<int> | |b| == PGSIZE witness seq(PGSIZE, i => 0)

  /** The state of the machine, as a value. */
  datatype Snap = Snap(ptes: Tables, data: map<nat, Bytes>, owner: Owners, at: Nodes)

  predicate SameData(data: map<nat, Bytes>, data': map<nat, Bytes>, p: nat) {
    (p in data <==> p in data') && (p in data ==> data'[p] == data[p])
  }

  /** Pages in use keep their role and contents and nodes stay; new nodes, made of free pages, belong to root. */
  ghost predicate Grew(root: nat, s: Snap, t: Snap) {
    && t.owner.Keys == s.owner.Keys
    && (forall k :: k in s.at ==> k in t.at && t.at[k] == s.at[k])
    && (forall k :: k in t.at && k !in s.at ==> k.root == root && k.level < 2)
    && (forall p :: p in s.owner && s.owner[p] != Free ==> t.owner[p] == s.owner[p] && SameData(s.data, t.data, p))
    && (forall p :: p in s.owner && t.owner[p] != s.owner[p] ==> t.owner[p].Node?)
    && (forall p :: p !in s.owner ==> SameData(s.data, t.data, p))
  }

  /** The flat view: the mapping of page v in the table at root r, ZERO when it has none. */
  function View(s: Snap, r: nat, v: nat): Pte {
    var e := Entry(s.ptes, s.at, r, v);
    if e.v then e else ZERO
  }

  /** A page is mapped below the trapframe exactly where its role says. */
  ghost predicate Leaves(s: Snap) {
    && (forall r: nat, v: nat {:trigger View(s, r, v)} :: v < TRAPFRAME && View(s, r, v).v ==>
          View(s, r, v).ppn in s.owner && s.owner[View(s, r, v).ppn] == Mapped(r, v))
    && (forall p :: p in s.owner && s.owner[p].Mapped? ==>
          s.owner[p].v < TRAPFRAME && View(s, s.owner[p].root, s.owner[p].v).v &&
            View(s, s.owner[p].root, s.owner[p].v).ppn == p)
    && (forall p :: p in s.owner && s.owner[p].Mapped? ==> p in s.data)
  }

  /** The flat view is the same but for entries v..v+n of root, which now map the pages from p on. */
  ghost predicate ViewMapped(s: Snap, t: Snap, root: nat, v: nat, n: nat, p: nat, perm: Perm) {
    forall r: nat, u: nat {:trigger View(t, r, u)} ::
      View(t, r, u) == if r == root && v <= u < v + n then Pte(p + u - v, true, perm) else View(s, r, u)
  }

  ghost predicate ViewKept(s: Snap, t: Snap) {
    forall r: nat, u: nat {:trigger View(t, r, u)} :: View(t, r, u) == View(s, r, u)
  }

  lemma GrewMore(root: nat, s: Snap, t: Snap, u: Snap)
    requires Grew(root, s, t) && Grew(root, t, u)
    ensures Grew(root, s, u)
  {
  }

  lemma GrewByNode(root: nat, s: Snap, t: Snap, p: nat, c: Key)
    requires p in s.owner && s.owner[p] == Free && c !in s.at && c.root == root && c.level < 2
    requires t.owner == s.owner[p := Node(c)] && t.at == s.at[c := p] && p in t.data && t.data == s.data[p := t.data[p]]
    ensures Grew(root, s, t)
  {
  }

  lemma GrewSelf(root: nat, s: Snap)
    ensures Grew(root, s, s) && ViewKept(s, s)
  {
  }

  lemma ViewKeptMore(s: Snap, t: Snap, u: Snap)
    requires ViewKept(s, t) && ViewKept(t, u)
    ensures ViewKept(s, u)
  {
    forall r: nat, v: nat ensures View(u, r, v) == View(s, r, v) {
      assert View(t, r, v) == View(s, r, v);
    }
  }

  /** Building tables keeps every mapped page where it was. */
  lemma LeavesGrew(root: nat, s: Snap, t: Snap)
    requires Grew(root, s, t) && ViewKept(s, t) && Leaves(s)
    ensures Leaves(t)
  {
    forall r: nat, v: nat | v < TRAPFRAME && View(t, r, v).v
      ensures View(t, r, v).ppn in t.owner && t.owner[View(t, r, v).ppn] == Mapped(r, v)
    {
      assert View(t, r, v) == View(s, r, v);
    }
  }

  /** One step of walk: the entry of a node says whether the next node exists, and where. */
  lemma Descend(ptes: Tables, at: Nodes, root: nat, v: nat, level: nat)
    requires Tree(ptes, at) && v < MAXVPN && 0 < level <= 2 && KeyAt(root, v, level) in at
    ensures var k, x := KeyAt(root, v, level), IndexAt(v, level);
      && k.level == level && k.root == root && x < ENTRIES && Child(k, x) == KeyAt(root, v, level - 1)
      && at[k] in ptes && |ptes[at[k]]| == ENTRIES
      && var e := ptes[at[k]][x];
         if e.v then Child(k, x) in at && e.ppn == at[Child(k, x)] else Child(k, x) !in at && Low(root, v) !in at
  {
    var k, x := KeyAt(root, v, level), IndexAt(v, level);
    assert NodeOk(ptes, at, k);
    assert Points(at, k, x, ptes[at[k]][x]);
    if level == 2 && Child(k, x) !in at {
      NoGrandchild(ptes, at, Mid(root, v), v / ENTRIES % ENTRIES);
    }
  }

  /** Entry v of root is e; all others are as before. */
  ghost predicate ViewSet(s: Snap, t: Snap, root: nat, v: nat, e: Pte) {
    forall r: nat, u: nat {:trigger View(t, r, u)} ::
      View(t, r, u) == if r == root && u == v then e else View(s, r, u)
  }

  lemma StoreView(s: Snap, t: Snap, root: nat, v: nat, e: Pte)
    requires Tree(s.ptes, s.at) && Low(root, v) in s.at && LeafOrZero(e)
    requires s.at[Low(root, v)] in s.ptes && |s.ptes[s.at[Low(root, v)]]| == ENTRIES
    requires t.ptes == Store(s.ptes, s.at[Low(root, v)], v % ENTRIES, e) && t.at == s.at
    ensures Tree(t.ptes, t.at) && ViewSet(s, t, root, v, e)
  {
    SetEntry(s.ptes, s.at, root, v, e);
    forall r: nat, u: nat ensures View(t, r, u) == if r == root && u == v then e else View(s, r, u) {
      assert (r, u) != (root, v) ==> Entry(t.ptes, t.at, r, u) == Entry(s.ptes, s.at, r, u);
    }
  }

  lemma MapOneMore(s: Snap, t: Snap, u: Snap, w: Snap, root: nat, v: nat, n: nat, p: nat, perm: Perm)
    requires ViewMapped(s, t, root, v, n, p, perm) && ViewKept(t, u)
    requires ViewSet(u, w, root, v + n, Pte(p + n, true, perm))
    ensures ViewMapped(s, w, root, v, n + 1, p, perm)
  {
    forall r: nat, x: nat
      ensures View(w, r, x) == if r == root && v <= x < v + n + 1 then Pte(p + x - v, true, perm) else View(s, r, x)
    {
      assert View(u, r, x) == View(t, r, x);
      assert View(t, r, x) == if r == root && v <= x < v + n then Pte(p + x - v, true, perm) else View(s, r, x);
    }
  }

  lemma MapNone(s: Snap, root: nat, v: nat, p: nat, perm: Perm)
    ensures ViewMapped(s, s, root, v, 0, p, perm)
  {
  }

  lemma MapKept(s: Snap, t: Snap, u: Snap, root: nat, v: nat, n: nat, p: nat, perm: Perm)
    requires ViewMapped(s, t, root, v, n, p, perm) && ViewKept(t, u)
    ensures ViewMapped(s, u, root, v, n, p, perm)
  {
    forall r: nat, x: nat
      ensures View(u, r, x) == if r == root && v <= x < v + n then Pte(p + x - v, true, perm) else View(s, r, x)
    {
      assert View(u, r, x) == View(t, r, x);
    }
  }

  lemma EntryOf(s: Snap, root: nat, v: nat)
    requires Tree(s.ptes, s.at)
    ensures Low(root, v) in s.at ==>
      var n := s.at[Low(root, v)];
      && n in s.ptes && |s.ptes[n]| == ENTRIES
      && View(s, root, v) == s.ptes[n][v % ENTRIES] && LeafOrZero(View(s, root, v))
    ensures Low(root, v) !in s.at ==> !View(s, root, v).v
  {
    assert Low(root, v) in s.at ==> NodeOk(s.ptes, s.at, Low(root, v));
  }

  /**
   t comes from s by taking away the mappings v..v+n of root. Their pages go back to the
   free list, or to the caller; every other entry, role and page is as before.
   */
  ghost predicate Dropped(s: Snap, t: Snap, root: nat, v: nat, n: nat, freed: bool) {
    && t.at == s.at && t.owner.Keys == s.owner.Keys
    && (forall r: nat, u: nat {:trigger View(t, r, u)} ::
          View(t, r, u) == if r == root && v <= u < v + n then ZERO else View(s, r, u))
    && (forall p :: p in s.owner ==>
      t.owner[p] == if InRange(s.owner[p], root, v, n) then (if freed then Free else Held) else s.owner[p])
    && (forall p :: p !in s.owner || t.owner[p] == s.owner[p] ==> SameData(s.data, t.data, p))
  }

  predicate InRange(role: Role, root: nat, v: nat, n: nat) {
    role.Mapped? && role.root == root && v <= role.v < v + n
  }

  lemma DroppedNone(s: Snap, root: nat, v: nat, freed: bool)
    ensures Dropped(s, s, root, v, 0, freed)
  {
  }

  /** There was nothing to take away. */
  lemma DroppedAbsent(s: Snap, root: nat, v: nat, freed: bool)
    requires Leaves(s) && !View(s, root, v).v
    ensures Dropped(s, s, root, v, 1, freed)
  {
    forall p | p in s.owner ensures !InRange(s.owner[p], root, v, 1) {
      assert !View(s, root, v).v;
    }
  }

  lemma DroppedOne(s: Snap, t: Snap, root: nat, v: nat, freed: bool)
    requires Leaves(s) && View(s, root, v).v && ViewSet(s, t, root, v, ZERO) && t.at == s.at
    requires var p := View(s, root, v).ppn;
      && (v < TRAPFRAME ==> t.owner == s.owner[p := if freed then Free else Held])
      && (v >= TRAPFRAME ==> t.owner == s.owner)
      && (forall q :: q != p || !freed ==> SameData(s.data, t.data, q))
    ensures Dropped(s, t, root, v, 1, freed) || (freed && v >= TRAPFRAME)
  {
    var p := View(s, root, v).ppn;
    if v < TRAPFRAME {
      assert s.owner[p] == Mapped(root, v);
    }
    forall q | q in s.owner ensures InRange(s.owner[q], root, v, 1) ==> v < TRAPFRAME && q == p {
      assert View(s, root, v).ppn == p;
    }
  }

  lemma LeavesDropped(s: Snap, t: Snap, root: nat, v: nat, n: nat, freed: bool)
    requires Leaves(s) && Dropped(s, t, root, v, n, freed)
    ensures Leaves(t)
  {
    forall r: nat, u: nat | u < TRAPFRAME && View(t, r, u).v
      ensures View(t, r, u).ppn in t.owner && t.owner[View(t, r, u).ppn] == Mapped(r, u)
    {
      assert View(t, r, u) == View(s, r, u);
    }
    forall p | p in t.owner && t.owner[p].Mapped?
      ensures var e := View(t, t.owner[p].root, t.owner[p].v); t.owner[p].v < TRAPFRAME && e.v && e.ppn == p
    {
      assert s.owner[p] == t.owner[p];
    }
  }

  lemma BooksRelabel(owner: Owners, free: seq<nat>, at: Nodes, p: nat, role: Role)
    requires Books(owner, free, at) && p in owner
    requires (owner[p].Mapped? || owner[p] == Held) && (role.Mapped? || role == Held)
    ensures Books(owner[p := role], free, at)
  {
  }

  /**
   t comes from s by giving root new mappings in v..v+n, made of free pages, and the
   tables they need. Everything else, and every page that was in use, is as before.
   */
  ghost predicate Extended(root: nat, s: Snap, t: Snap, v: nat, n: nat) {
    && t.owner.Keys == s.owner.Keys
    && (forall k :: k in s.at ==> k in t.at && t.at[k] == s.at[k])
    && (forall k :: k in t.at && k !in s.at ==> k.root == root && k.level < 2)
    && (forall p :: p in s.owner && s.owner[p] != Free ==> t.owner[p] == s.owner[p] && SameData(s.data, t.data, p))
    && (forall p :: p in s.owner && t.owner[p] != s.owner[p] ==> t.owner[p].Node? || InRange(t.owner[p], root, v, n))
    && (forall p :: p !in s.owner ==> SameData(s.data, t.data, p))
    && ViewOutside(s, t, root, v, n)
  }

  ghost predicate ViewOutside(s: Snap, t: Snap, root: nat, v: nat, n: nat) {
    forall r: nat, u: nat {:trigger View(t, r, u)} :: !(r == root && v <= u < v + n) ==> View(t, r, u) == View(s, r, u)
  }

  lemma ExtendedMore(root: nat, s: Snap, t: Snap, u: Snap, v: nat, n: nat, m: nat)
    requires Extended(root, s, t, v, n) && Extended(root, t, u, v + n, m)
    ensures Extended(root, s, u, v, n + m)
  {
    forall r: nat, x: nat | !(r == root && v <= x < v + n + m) ensures View(u, r, x) == View(s, r, x) {
      assert View(t, r, x) == View(s, r, x);
    }
    forall p | p in s.owner && u.owner[p] != s.owner[p]
      ensures u.owner[p].Node? || InRange(u.owner[p], root, v, n + m)
    {
    }
  }

  lemma ExtendedNone(root: nat, s: Snap, t: Snap, v: nat)
    requires Grew(root, s, t) && ViewKept(s, t)
    ensures Extended(root, s, t, v, 0)
  {
  }

  /** t comes from s by taking page p from the free list and filling it. */
  ghost predicate Took(s: Snap, t: Snap, p: nat) {
    && p in s.owner && s.owner[p] == Free && t.owner == s.owner[p := Held]
    && t.ptes == s.ptes && t.at == s.at && p in t.data && t.data == s.data[p := t.data[p]]
  }

  /** Mapping a page that was taken from the free list for the purpose. */
  lemma ExtendedByPage(root: nat, s: Snap, s': Snap, t: Snap, v: nat, p: nat, perm: Perm)
    requires Took(s, s', p) && p in t.owner && Grew(root, s', t.(owner := t.owner[p := Held]))
    requires t.owner[p] == Mapped(root, v) && ViewMapped(s', t, root, v, 1, p, perm)
    ensures Extended(root, s, t, v, 1) && SameData(s'.data, t.data, p) && View(t, root, v) == Pte(p, true, perm)
  {
    var t' := t.(owner := t.owner[p := Held]);
    assert t.owner.Keys == t'.owner.Keys == s.owner.Keys;
    assert forall q :: q in t.owner && q != p ==> t'.owner[q] == t.owner[q];
    forall r: nat, x: nat ensures View(s', r, x) == View(s, r, x) {
    }
    forall q | q in s.owner && s.owner[q] != Free ensures t.owner[q] == s.owner[q] && SameData(s.data, t.data, q) {
      assert SameData(s'.data, t'.data, q);
    }
    forall q | q !in s.owner ensures SameData(s.data, t.data, q) {
      assert SameData(s'.data, t'.data, q);
    }
  }

  /** Giving the page back when it could not be mapped leaves nothing behind but tables. */
  lemma ExtendedByNothing(root: nat, s: Snap, s': Snap, t: Snap, u: Snap, v: nat, p: nat)
    requires Took(s, s', p) && p in t.owner && Grew(root, s', t) && t.owner[p] == Held && ViewKept(s', t)
    requires u.owner == t.owner[p := Free] && u.ptes == t.ptes
    requires u.at == t.at && p in u.data && u.data == t.data[p := u.data[p]]
    ensures Extended(root, s, u, v, 0) && (Leaves(t) ==> Leaves(u))
  {
    forall r: nat, x: nat ensures View(u, r, x) == View(s, r, x) {
      assert View(t, r, x) == View(s', r, x) == View(s, r, x);
      assert View(u, r, x) == View(t, r, x);
    }
    forall r: nat, x: nat ensures View(t, r, x) == View(u, r, x) {
    }
    forall q | q in s.owner && s.owner[q] != Free ensures u.owner[q] == s.owner[q] && SameData(s.data, u.data, q) {
      assert SameData(s'.data, t.data, q);
    }
    forall q | q !in s.owner ensures SameData(s.data, u.data, q) {
      assert SameData(s'.data, t.data, q);
    }
  }

  // ---------------------------------------------------------------- taking a table apart

  /** j is k or lies below it. */
  ghost predicate Under(j: Key, k: Key)
    decreases k.level - j.level
  {
    j == k || (j.level < k.level && Under(Parent(j), k))
  }

  /** The entry of k through which j hangs below it. */
  ghost function Branch(j: Key, k: Key): (x: nat)
    requires Under(j, k) && j != k
    ensures x < ENTRIES && j.level < k.level && Under(j, Child(k, x))
    decreases k.level - j.level
  {
    if Parent(j) == k then j.prefix % ENTRIES else Branch(Parent(j), k)
  }

  lemma {:induction false} UnderChild(j: Key, k: Key, x: nat)
    requires k.level > 0 && x < ENTRIES && Under(j, Child(k, x))
    ensures Under(j, k) && j != k && Branch(j, k) == x
    decreases k.level - j.level
  {
    ChildParent(k, x);
    if j != Child(k, x) {
      UnderChild(Parent(j), k, x);
    }
  }

  /** Every node of a table lies under its root. */
  lemma UnderTop(ptes: Tables, at: Nodes, j: Key)
    requires Tree(ptes, at) && j in at
    ensures Under(j, Top(j.root))
  {
    assert NodeOk(ptes, at, j);
    if j.level < 2 {
      assert NodeOk(ptes, at, Parent(j));
      if j.level < 1 {
        assert NodeOk(ptes, at, Parent(Parent(j)));
      }
    }
  }

  /** A node all of whose mappings are gone, and likewise below it. */
  ghost predicate Bare(ptes: Tables, at: Nodes, k: Key) {
    forall j {:trigger NodeOk(ptes, at, j)} :: j in at && Under(j, k) ==>
      NodeOk(ptes, at, j) && (j.level == 0 ==> ptes[at[j]] == Empty())
  }

  predicate SamePage(ptes: Tables, ptes': Tables, p: nat) {
    (p in ptes <==> p in ptes') && (p in ptes ==> ptes'[p] == ptes[p])
  }

  /** The nodes in gone have been taken away and their pages freed; no node but k has changed besides. */
  ghost predicate Stripped(s: Snap, t: Snap, gone: set<Key>, k: Key) {
    && t.at == s.at - gone
    && t.owner.Keys == s.owner.Keys
    && (forall j :: j in s.at && j !in gone && j != k ==> SamePage(s.ptes, t.ptes, s.at[j]))
    && (forall p :: p in s.owner ==>
      t.owner[p] == if s.owner[p].Node? && s.owner[p].k in gone then Free else s.owner[p])
    && (forall p :: p !in s.owner || t.owner[p] == s.owner[p] ==> SameData(s.data, t.data, p))
  }

  /** The nodes below k that hang from its first i entries. */
  ghost function Before(at: Nodes, k: Key, i: nat): set<Key> {
    set j | j in at && Under(j, k) && j != k && Branch(j, k) < i
  }

  ghost function Subtree(at: Nodes, k: Key): set<Key> {
    set j | j in at && Under(j, k)
  }

  lemma BeforeNext(at: Nodes, k: Key, i: nat)
    requires k.level > 0 && i < ENTRIES
    ensures Before(at, k, i + 1) == Before(at, k, i) + Subtree(at, Child(k, i))
    ensures Before(at, k, i) !! Subtree(at, Child(k, i)) && k !in Before(at, k, i) && k !in Subtree(at, Child(k, i))
    ensures Subtree(at - Before(at, k, i), Child(k, i)) == Subtree(at, Child(k, i))
  {
    forall j | Under(j, Child(k, i)) ensures Under(j, k) && j != k && Branch(j, k) == i {
      UnderChild(j, k, i);
    }
  }

  /** A step to the next entry, through which nothing hangs. */
  lemma BeforeSkip(ptes: Tables, at: Nodes, k: Key, i: nat)
    requires Bare(ptes, at, k) && k in at && i < ENTRIES && (k.level > 0 ==> Child(k, i) !in at)
    ensures Before(at, k, i + 1) == Before(at, k, i)
  {
    forall j | j in at && Under(j, k) && j != k && Branch(j, k) == i ensures false {
      AncestorsPresent(ptes, at, k, j, i);
    }
  }

  lemma {:induction false} AncestorsPresent(ptes: Tables, at: Nodes, k: Key, j: Key, i: nat)
    requires Bare(ptes, at, k) && k in at && j in at && Under(j, k) && j != k && Branch(j, k) == i
    ensures Child(k, i) in at
    decreases k.level - j.level
  {
    assert NodeOk(ptes, at, k) && NodeOk(ptes, at, j);
    if Parent(j) == k {
      assert j == Child(k, i);
    } else {
      AncestorsPresent(ptes, at, k, Parent(j), i);
    }
  }

  lemma BareNode(s: Snap, t: Snap, k: Key, i: nat, j: Key)
    requires Bare(s.ptes, s.at, k) && k in s.at && 0 < k.level && i < ENTRIES && Child(k, i) in s.at
    requires Stripped(s, t, Before(s.at, k, i), k) && j in s.at && Under(j, Child(k, i))
    ensures NodeOk(t.ptes, t.at, j) && (j.level == 0 ==> t.ptes[t.at[j]] == Empty())
  {
    UnderChild(j, k, i);
    assert NodeOk(s.ptes, s.at, j);
    assert j !in Before(s.at, k, i);
    if j == Child(k, i) {
      ChildParent(k, i);
    } else {
      UnderChild(Parent(j), k, i);
    }
    if j.level > 0 {
      forall x | 0 <= x < ENTRIES ensures Points(t.at, j, x, t.ptes[t.at[j]][x]) {
        assert Points(s.at, j, x, s.ptes[s.at[j]][x]);
        ChildParent(j, x);
        UnderChild(Child(j, x), k, i);
      }
    }
  }

  lemma BareBelow(s: Snap, t: Snap, k: Key, i: nat)
    requires Bare(s.ptes, s.at, k) && k in s.at && 0 < k.level && i < ENTRIES && Child(k, i) in s.at
    requires Stripped(s, t, Before(s.at, k, i), k)
    ensures Child(k, i) in t.at && Bare(t.ptes, t.at, Child(k, i))
  {
    BeforeNext(s.at, k, i);
    assert Child(k, i) in Subtree(s.at, Child(k, i));
    forall j | j in t.at && Under(j, Child(k, i))
      ensures NodeOk(t.ptes, t.at, j) && (j.level == 0 ==> t.ptes[t.at[j]] == Empty())
    {
      BareNode(s, t, k, i, j);
    }
  }

  lemma StrippedCompose(s: Snap, t: Snap, u: Snap, g: set<Key>, h: set<Key>, k: Key, c: Key)
    requires Stripped(s, t, g, k) && Stripped(t, u, h, c) && c in h
    ensures Stripped(s, u, g + h, k)
  {
    forall j | j in s.at && j !in g + h && j != k ensures SamePage(s.ptes, u.ptes, s.at[j]) {
      assert SamePage(s.ptes, t.ptes, s.at[j]);
      assert SamePage(t.ptes, u.ptes, t.at[j]);
    }
  }

  /** Changing the page of k itself is none of Stripped's business. */
  lemma StrippedOwnPage(s: Snap, u: Snap, w: Snap, g: set<Key>, k: Key)
    requires Stripped(s, u, g, k) && k in s.at && w == u.(ptes := w.ptes)
    requires s.at[k] in u.ptes && s.at[k] in w.ptes && w.ptes == u.ptes[s.at[k] := w.ptes[s.at[k]]]
    requires forall j :: j in s.at && j !in g && s.at[j] == s.at[k] ==> j == k
    ensures Stripped(s, w, g, k)
  {
    forall j | j in s.at && j !in g && j != k ensures SamePage(s.ptes, w.ptes, s.at[j]) {
      assert SamePage(s.ptes, u.ptes, s.at[j]);
    }
  }

  lemma StrippedMore(s: Snap, t: Snap, u: Snap, w: Snap, k: Key, i: nat)
    requires k in s.at && 0 < k.level && i < ENTRIES && Stripped(s, t, Before(s.at, k, i), k)
    requires Child(k, i) in t.at && Stripped(t, u, Subtree(t.at, Child(k, i)), Child(k, i))
    requires w == u.(ptes := w.ptes) && s.at[k] in u.ptes
    requires s.at[k] in w.ptes && w.ptes == u.ptes[s.at[k] := w.ptes[s.at[k]]]
    requires forall j :: j in s.at && j !in Before(s.at, k, i) && s.at[j] == s.at[k] ==> j == k
    ensures Stripped(s, w, Before(s.at, k, i + 1), k)
  {
    BeforeNext(s.at, k, i);
    assert t.at == s.at - Before(s.at, k, i);
    StrippedCompose(s, t, u, Before(s.at, k, i), Subtree(t.at, Child(k, i)), k, Child(k, i));
    StrippedOwnPage(s, u, w, Before(s.at, k, i + 1), k);
  }

  /** When every entry of k has been passed only k itself is left of its subtree. */
  lemma BeforeAll(at: Nodes, k: Key)
    requires k in at
    ensures Subtree(at, k) == Before(at, k, ENTRIES) + {k}
  {
  }

  class Machine {
    var ptes: Tables                   // pages used as page tables
    var data: map<nat, Bytes>          // contents of the other pages
    var free: seq<nat>                 // kmem.freelist, head first

    ghost var owner: Owners
    ghost var at: Nodes

    ghost predicate Sound()
      reads this
    {
      Tree(ptes, at) && Books(owner, free, at)
    }

    ghost predicate Valid()
      reads this
    {
      Sound() && Leaves(Now())
    }

    ghost function Now(): Snap
      reads this
    {
      Snap(ptes, data, owner, at)
    }

    /** kinit and freerange: every page of lo..hi is free, and there are no tables yet. */
    constructor (lo: nat, hi: nat)
      requires lo <= hi
      ensures Valid() && at == map[] && |free| == hi - lo
      ensures forall p :: p in owner <==> lo <= p < hi
      ensures forall p :: p in owner ==> owner[p] == Free
    {
      ptes, data, free := map[], map[], [];
      owner, at := map[], map[];
      new;
      for p := lo to hi
        invariant ptes == map[] && at == map[] && Books(owner, free, at) && |free| == p - lo
        invariant forall q :: q in owner <==> lo <= q < p
        invariant forall q :: q in owner ==> owner[q] == Free
      {
        ghost var taken := owner[p := Held];
        assert Books(taken, free, at) by { BooksNew(owner, free, at, p); }
        BooksGive(taken, free, at, p);
        assert taken[p := Free] == owner[p := Free];
        data := data[p := seq(PGSIZE, i => 1)];
        free := [p] + free;
        owner := owner[p := Free];
      }
    }

    /** kalloc */
    method Kalloc() returns (p: nat, ok: bool)
      requires Books(owner, free, at)
      modifies this`free, this`data, this`owner
      ensures Books(owner, free, at)
      ensures ok <==> |old(free)| > 0
      ensures ok ==> p == old(free)[0] && p in old(owner) && old(owner)[p] == Free && owner == old(owner)[p := Held]
      ensures ok ==> free == old(free)[1..] && p in data && data == old(data)[p := data[p]]
      ensures ok ==> forall k :: k in at ==> at[k] != p
      ensures !ok ==> free == old(free) && data == old(data) && owner == old(owner)
    {
      if |free| == 0 {
        return 0, false;
      }
      p, ok := free[0], true;
      BooksTake(owner, free, at);
      free := free[1..];
      owner := owner[p := Held];
      data := data[p := seq(PGSIZE, i => 5)];
    }

    /** kfree; that the page is not already free is what its caller has to know. */
    method Kfree(p: nat)
      requires Books(owner, free, at) && p in owner && owner[p] == Held
      modifies this`free, this`data, this`owner
      ensures Books(owner, free, at) && owner == old(owner)[p := Free] && free == [p] + old(free)
      ensures p in data && data == old(data)[p := data[p]]
    {
      BooksGive(owner, free, at, p);
      data := data[p := seq(PGSIZE, i => 1)];
      free := [p] + free;
      owner := owner[p := Free];
    }

    /** The allocating branch of walk: a zeroed page becomes the missing child. */
    method NewTable(n: nat, ghost k: Key, x: nat) returns (p: nat, ok: bool)
      requires Sound() && k in at && n == at[k] && k.level > 0 && x < ENTRIES && Child(k, x) !in at
      modifies this
      ensures Sound() && Grew(k.root, old(Now()), Now()) && ViewKept(old(Now()), Now())
      ensures ok ==> at == old(at)[Child(k, x) := p]
      ensures !ok ==> free == [] && at == old(at)
    {
      hide Tree, Books, ViewKept;
      NodeFacts(ptes, at, k);
      GrewSelf(k.root, Now());
      p, ok := Kalloc();
      if !ok {
        return;
      }
      LinkNode(n, k, x, p);
      GrewByNode(k.root, old(Now()), Now(), p, Child(k, x));
    }

    /** memset(pagetable, 0, PGSIZE); *pte = PA2PTE(pagetable) | PTE_V */
    method LinkNode(n: nat, ghost k: Key, x: nat, p: nat)
      requires Sound() && k in at && n == at[k] && k.level > 0 && x < ENTRIES && Child(k, x) !in at
      requires p in owner && owner[p] == Held && forall j :: j in at ==> at[j] != p
      modifies this`ptes, this`owner, this`at
      ensures Sound() && forall s: Snap :: s.ptes == old(ptes) && s.at == old(at) ==> ViewKept(s, Now())
      ensures at == old(at)[Child(k, x) := p] && owner == old(owner)[p := Node(Child(k, x))]
    {
      hide Tree, Books;
      NodeFacts(ptes, at, k);
      ghost var c, owner' := Child(k, x), owner[p := Node(Child(k, x))];
      AddNode(ptes, at, k, x, p);
      BooksAddNode(owner, free, at, p, c);
      ptes := ptes[p := Empty()];
      ptes := Store(ptes, n, x, Pte(p, true, NOPERM));
      owner, at := owner', at[c := p];
    }

    /** walk: finds the last-level node for v, building the missing ones when alloc is set. */
    method Walk(root: nat, v: nat, alloc: bool) returns (n: nat, ok: bool)
      requires Sound() && Top(root) in at && v < MAXVPN
      modifies this
      ensures Sound() && Grew(root, old(Now()), Now()) && ViewKept(old(Now()), Now())
      ensures ok ==> Low(root, v) in at && n == at[Low(root, v)]
      ensures !ok ==> Low(root, v) !in at && (alloc ==> free == [])
      ensures !alloc ==> Now() == old(Now()) && free == old(free)
    {
      hide Tree, Books, ViewKept, Grew;
      var level := 2;
      TopIsRoot(ptes, at, root);
      GrewSelf(root, Now());
      n := root;
      while level > 0
        invariant 0 <= level <= 2 && Sound() && Grew(root, old(Now()), Now()) && ViewKept(old(Now()), Now())
        invariant KeyAt(root, v, level) in at && n == at[KeyAt(root, v, level)]
        invariant !alloc ==> Now() == old(Now()) && free == old(free)
      {
        Descend(ptes, at, root, v, level);
        var e := ptes[n][IndexAt(v, level)];
        if e.v {
          n := e.ppn;
        } else {
          if !alloc {
            return 0, false;
          }
          ghost var s := Now();
          var p, got := NewTable(n, KeyAt(root, v, level), IndexAt(v, level));
          GrewMore(root, old(Now()), s, Now());
          ViewKeptMore(old(Now()), s, Now());
          if !got {
            Descend(ptes, at, root, v, level);
            return 0, false;
          }
          n := p;
        }
        level := level - 1;
      }
      ok := true;
    }

    /** Writes the last-level entry for v, in a node that walk has found. */
    method SetPte(n: nat, root: nat, v: nat, e: Pte)
      requires Sound() && Low(root, v) in at && n == at[Low(root, v)] && LeafOrZero(e)
      modifies this`ptes
      ensures Sound() && ViewSet(old(Now()), Now(), root, v, e)
    {
      hide Books;
      EntryOf(Now(), root, v);
      ptes := Store(ptes, n, v % ENTRIES, e);
      StoreView(old(Now()), Now(), root, v, e);
    }

    /**
     mappages. When a table page cannot be had, the first `done` pages stay mapped.
     That no entry in the range is valid yet is what the source's panic demands.
     */
    method MapPages(root: nat, v: nat, count: nat, p: nat, perm: Perm) returns (ok: bool, ghost done: nat)
      requires Sound() && Top(root) in at && count > 0 && v + count <= MAXVPN && (perm.r || perm.w || perm.x)
      requires forall u: nat :: v <= u < v + count ==> !View(Now(), root, u).v
      modifies this
      ensures Sound() && Grew(root, old(Now()), Now())
      ensures ok <==> done == count
      ensures done <= count && ViewMapped(old(Now()), Now(), root, v, done, p, perm)
      ensures !ok ==> free == []
    {
      hide Tree, Books, Grew, ViewKept, ViewMapped, ViewSet;
      var i := 0;
      GrewSelf(root, Now());
      MapNone(Now(), root, v, p, perm);
      while true
        invariant i < count && Sound() && Grew(root, old(Now()), Now()) && Top(root) in at
        invariant ViewMapped(old(Now()), Now(), root, v, i, p, perm)
        decreases count - i
      {
        ghost var s := Now();
        var n, got := Walk(root, v + i, true);
        ghost var t := Now();
        GrewMore(root, old(Now()), s, t);
        if !got {
          MapKept(old(Now()), s, t, root, v, i, p, perm);
          return false, i;
        }
        NotYetMapped(old(Now()), s, t, root, v, i, p, perm);
        EntryOf(t, root, v + i);
        assert !ptes[n][(v + i) % ENTRIES].v;
        SetPte(n, root, v + i, Pte(p + i, true, perm));
        MapOneMore(old(Now()), s, t, Now(), root, v, i, p, perm);
        GrewEntries(root, old(Now()), t, Now());
        i := i + 1;
        if i == count {
          return true, i;
        }
      }
    }

    /** One turn of uvmunmap's loop. */
    method UnmapOne(root: nat, v: nat, doFree: bool)
      requires Valid() && Top(root) in at && v < MAXVPN && (doFree ==> v < TRAPFRAME)
      modifies this
      ensures Valid() && Dropped(old(Now()), Now(), root, v, 1, doFree)
    {
      hide Tree, Books, Leaves, Dropped, Grew, ViewKept, ViewSet;
      var n, ok := Walk(root, v, false);
      EntryOf(Now(), root, v);
      if !ok || !ptes[n][v % ENTRIES].v {
        DroppedAbsent(Now(), root, v, doFree);
        return;
      }
      var p := ptes[n][v % ENTRIES].ppn;
      if v < TRAPFRAME {
        MappedRole(Now(), root, v);
        BooksRelabel(owner, free, at, p, Held);
        owner := owner[p := Held];
      }
      if doFree {
        Kfree(p);
      }
      ghost var s := Now();
      SetPte(n, root, v, ZERO);
      ViewSetFrame(old(Now()), s, Now(), root, v, ZERO);
      DroppedOne(old(Now()), Now(), root, v, doFree);
      LeavesDropped(old(Now()), Now(), root, v, 1, doFree);
    }

    /** uvmunmap */
    method Unmap(root: nat, v: nat, npages: nat, doFree: bool)
      requires Valid() && Top(root) in at && v + npages <= MAXVPN && (doFree ==> v + npages <= TRAPFRAME)
      modifies this
      ensures Valid() && Dropped(old(Now()), Now(), root, v, npages, doFree)
    {
      hide Tree, Books, Leaves;
      DroppedNone(Now(), root, v, doFree);
      for i := 0 to npages
        invariant Valid() && Dropped(old(Now()), Now(), root, v, i, doFree)
      {
        UnmapOne(root, v + i, doFree);
      }
    }

    /** mappages for one page that its caller holds: the page goes over to the table. */
    method MapHeld(root: nat, v: nat, p: nat, perm: Perm) returns (ok: bool)
      requires Valid() && Top(root) in at && v < TRAPFRAME && !View(Now(), root, v).v && (perm.r || perm.w || perm.x)
      requires p in owner && owner[p] == Held && p in data
      modifies this
      ensures Valid() && p in owner && Grew(root, old(Now()), Now().(owner := owner[p := Held]))
      ensures ok ==> owner[p] == Mapped(root, v) && ViewMapped(old(Now()), Now(), root, v, 1, p, perm)
      ensures !ok ==> owner[p] == Held && ViewKept(old(Now()), Now()) && free == []
    {
      hide Tree, Books, Leaves, ViewMapped, ViewKept;
      ghost var done;
      ok, done := MapPages(root, v, 1, p, perm);
      if ok {
        BooksRelabel(owner, free, at, p, Mapped(root, v));
        ghost var t := Now();
        owner := owner[p := Mapped(root, v)];
        assert owner[p := Held] == t.owner;
        MappedFrame(old(Now()), t, Now(), root, v, p, perm);
        LeavesMapped(old(Now()), t, Now(), root, v, p, perm);
      } else {
        assert owner[p := Held] == owner;
        MappedNothing(old(Now()), Now(), root, v, p, perm);
        LeavesGrew(root, old(Now()), Now());
      }
    }

    /** kalloc, fill, mappages, and kfree when that fails: the common body of uvmalloc, uvmcopy and vmfault. */
    method AllocMap(root: nat, v: nat, perm: Perm, bytes: Bytes) returns (p: nat, ok: bool)
      requires Valid() && Top(root) in at && v < TRAPFRAME && !View(Now(), root, v).v && (perm.r || perm.w || perm.x)
      modifies this
      ensures Valid() && Extended(root, old(Now()), Now(), v, if ok then 1 else 0)
      ensures !ok ==> |free| <= 1
      ensures ok ==> var e := View(Now(), root, v);
        && e == Pte(p, true, perm) && p in old(owner) && old(owner)[p] == Free && p in data && data[p] == bytes
    {
      hide Tree, Books, Leaves, ViewMapped, ViewKept, Grew, Extended;
      p, ok := Kalloc();
      if !ok {
        GrewSelf(root, Now());
        ExtendedNone(root, old(Now()), Now(), v);
        return;
      }
      data := data[p := bytes];
      ghost var s := Now();
      LeavesHeld(old(Now()), s, p);
      ok := MapHeld(root, v, p, perm);
      if ok {
        ExtendedByPage(root, old(Now()), s, Now(), v, p, perm);
      } else {
        ghost var t := Now();
        assert owner[p := Held] == owner;
        Kfree(p);
        ExtendedByNothing(root, old(Now()), s, t, Now(), v, p);
      }
    }

    /** freewalk: the recursion returns every page of the subtree and never meets a leaf. */
    method FreeWalk(n: nat, ghost k: Key)
      requires Books(owner, free, at) && k in at && n == at[k] && Bare(ptes, at, k)
      modifies this
      ensures Books(owner, free, at) && Stripped(old(Now()), Now(), Subtree(old(at), k), k)
      decreases k.level, 1
    {
      hide Books, Bare, Stripped, Before, Subtree;
      StrippedNothing(Now(), k);
      BareSelf(ptes, at, k);
      for i := 0 to ENTRIES
        invariant Books(owner, free, at) && Stripped(old(Now()), Now(), Before(old(at), k, i), k)
        invariant k in at && at[k] == n && n in ptes && |ptes[n]| == ENTRIES
        invariant forall x :: i <= x < ENTRIES ==> ptes[n][x] == old(ptes)[n][x]
      {
        var pte := ptes[n][i];
        EntryBelow(old(Now()), k, i);
        if pte.v && !Leaf(pte) {
          FreeBranch(n, k, i, pte.ppn, old(Now()));
        } else {
          assert !pte.v;
          BeforeSkip(old(ptes), old(at), k, i);
        }
      }
      FreeNode(n, k, old(Now()));
    }

    /** The entry leads to a lower table: free that first, then clear the entry. */
    method FreeBranch(n: nat, ghost k: Key, i: nat, child: nat, ghost s: Snap)
      requires Books(owner, free, at) && Stripped(s, Now(), Before(s.at, k, i), k)
      requires k in s.at && Bare(s.ptes, s.at, k) && 0 < k.level && i < ENTRIES
      requires Child(k, i) in s.at && child == s.at[Child(k, i)]
      requires k in at && at[k] == s.at[k] == n && n in ptes && |ptes[n]| == ENTRIES
      modifies this
      ensures Books(owner, free, at) && Stripped(s, Now(), Before(s.at, k, i + 1), k)
      ensures k in at && at[k] == n && n in ptes && |ptes[n]| == ENTRIES
      ensures ptes[n] == old(ptes)[n][i := ZERO]
      decreases k.level, 0
    {
      hide Books, Bare, Stripped, Before, Subtree;
      BareBelow(s, Now(), k, i);
      StrippedAt(s, Now(), Before(s.at, k, i), k, Child(k, i));
      BeforeNext(s.at, k, i);
      ghost var t := Now();
      FreeWalk(child, Child(k, i));
      ghost var u := Now();
      StrippedKeeps(t, u, k, i);
      BooksInjective(t.owner, old(free), t.at);
      ptes := Store(ptes, n, i, ZERO);
      StrippedDistinct(s, t, Before(s.at, k, i), k);
      StrippedMore(s, t, u, Now(), k, i);
    }

    /** kfree(pagetable) at the end of freewalk. */
    method FreeNode(n: nat, ghost k: Key, ghost s: Snap)
      requires Books(owner, free, at) && Stripped(s, Now(), Before(s.at, k, ENTRIES), k)
      requires k in s.at && k in at && at[k] == s.at[k] == n
      modifies this
      ensures Books(owner, free, at) && Stripped(s, Now(), Subtree(s.at, k), k)
    {
      hide Books, Stripped, Before, Subtree;
      ghost var t := Now();
      BooksDropNode(owner, free, at, k);
      owner, at := owner[n := Held], at - {k};
      Kfree(n);
      BeforeAll(s.at, k);
      StrippedLast(s, t, Now(), k);
    }
  }

  lemma StrippedNothing(s: Snap, k: Key)
    ensures Stripped(s, s, Before(s.at, k, 0), k)
  {
    assert Before(s.at, k, 0) == {};
  }

  lemma BareSelf(ptes: Tables, at: Nodes, k: Key)
    requires Bare(ptes, at, k) && k in at
    ensures NodeOk(ptes, at, k)
  {
  }

  /** What the i-th entry of a bare node can be. */
  lemma EntryBelow(s: Snap, k: Key, i: nat)
    requires Bare(s.ptes, s.at, k) && k in s.at && i < ENTRIES
    ensures s.at[k] in s.ptes && |s.ptes[s.at[k]]| == ENTRIES
    ensures var e := s.ptes[s.at[k]][i];
      if e.v then k.level > 0 && !Leaf(e) && Child(k, i) in s.at && e.ppn == s.at[Child(k, i)]
      else (k.level > 0 ==> Child(k, i) !in s.at)
  {
    assert NodeOk(s.ptes, s.at, k);
    assert k.level > 0 ==> Points(s.at, k, i, s.ptes[s.at[k]][i]);
  }

  lemma StrippedAt(s: Snap, t: Snap, gone: set<Key>, k: Key, j: Key)
    requires Stripped(s, t, gone, k) && j in t.at
    ensures j in s.at && t.at[j] == s.at[j]
  {
  }

  lemma StrippedKeeps(t: Snap, u: Snap, k: Key, i: nat)
    requires k in t.at && 0 < k.level && i < ENTRIES && t.at[k] in t.ptes
    requires Stripped(t, u, Subtree(t.at, Child(k, i)), Child(k, i))
    ensures k in u.at && u.at[k] == t.at[k] && t.at[k] in u.ptes && u.ptes[t.at[k]] == t.ptes[t.at[k]]
  {
    BeforeNext(t.at, k, i);
    assert SamePage(t.ptes, u.ptes, t.at[k]);
  }

  lemma BooksInjective(owner: Owners, free: seq<nat>, at: Nodes)
    requires Books(owner, free, at)
    ensures forall j, k :: j in at && k in at && at[j] == at[k] ==> j == k
  {
  }

  lemma StrippedDistinct(s: Snap, t: Snap, gone: set<Key>, k: Key)
    requires Stripped(s, t, gone, k) && k in t.at
    requires forall j, k :: j in t.at && k in t.at && t.at[j] == t.at[k] ==> j == k
    ensures forall j :: j in s.at && j !in gone && s.at[j] == s.at[k] ==> j == k
  {
    forall j | j in s.at && j !in gone && s.at[j] == s.at[k] ensures j == k {
      assert j in t.at && t.at[j] == t.at[k];
    }
  }

  lemma BooksDropNode(owner: Owners, free: seq<nat>, at: Nodes, k: Key)
    requires Books(owner, free, at) && k in at
    ensures at[k] in owner && Books(owner[at[k] := Held], free, at - {k})
    ensures forall p :: p in owner ==> (owner[p] == Node(k) <==> p == at[k])
  {
  }

  lemma StrippedLast(s: Snap, t: Snap, u: Snap, k: Key)
    requires k in s.at && Stripped(s, t, Before(s.at, k, ENTRIES), k) && k in t.at
    requires t.at[k] in t.owner && forall p :: p in t.owner ==> (t.owner[p] == Node(k) <==> p == t.at[k])
    requires u.owner == t.owner[t.at[k] := Free] && u.at == t.at - {k} && u.ptes == t.ptes
    requires t.at[k] in u.data && u.data == t.data[t.at[k] := u.data[t.at[k]]]
    ensures Stripped(s, u, Before(s.at, k, ENTRIES) + {k}, k)
  {
  }

  lemma MappedFrame(s: Snap, t: Snap, u: Snap, root: nat, v: nat, p: nat, perm: Perm)
    requires ViewMapped(s, t, root, v, 1, p, perm) && u.ptes == t.ptes && u.at == t.at
    ensures ViewMapped(s, u, root, v, 1, p, perm)
  {
    forall r: nat, x: nat ensures View(u, r, x) == View(t, r, x) {
    }
  }

  lemma MappedNothing(s: Snap, t: Snap, root: nat, v: nat, p: nat, perm: Perm)
    requires ViewMapped(s, t, root, v, 0, p, perm)
    ensures ViewKept(s, t)
  {
  }

  lemma LeavesMapped(s: Snap, t: Snap, u: Snap, root: nat, v: nat, p: nat, perm: Perm)
    requires Leaves(s) && Grew(root, s, t) && ViewMapped(s, u, root, v, 1, p, perm)
    requires v < TRAPFRAME && !View(s, root, v).v
    requires p in s.owner && s.owner[p] == Held && p in s.data
    requires u.owner == t.owner[p := Mapped(root, v)] && u.data == t.data
    ensures Leaves(u)
  {
    forall r: nat, x: nat | x < TRAPFRAME && View(u, r, x).v
      ensures View(u, r, x).ppn in u.owner && u.owner[View(u, r, x).ppn] == Mapped(r, x)
    {
      assert !(r == root && x == v) ==> View(u, r, x) == View(s, r, x);
    }
  }

  lemma LeavesHeld(s: Snap, t: Snap, p: nat)
    requires Leaves(s) && Took(s, t, p)
    ensures Leaves(t)
  {
    forall r: nat, x: nat ensures View(t, r, x) == View(s, r, x) {
    }
  }

  lemma MappedRole(s: Snap, root: nat, v: nat)
    requires Leaves(s) && v < TRAPFRAME && View(s, root, v).v
    ensures View(s, root, v).ppn in s.owner && s.owner[View(s, root, v).ppn] == Mapped(root, v)
  {
  }

  lemma ViewSetFrame(s: Snap, s': Snap, t: Snap, root: nat, v: nat, e: Pte)
    requires ViewSet(s', t, root, v, e) && s'.ptes == s.ptes && s'.at == s.at
    ensures ViewSet(s, t, root, v, e)
  {
    forall r: nat, u: nat ensures View(t, r, u) == if r == root && u == v then e else View(s, r, u) {
      assert View(s', r, u) == View(s, r, u);
    }
  }

  lemma NotYetMapped(s: Snap, t: Snap, u: Snap, root: nat, v: nat, i: nat, p: nat, perm: Perm)
    requires ViewMapped(s, t, root, v, i, p, perm) && ViewKept(t, u)
    ensures View(u, root, v + i) == View(s, root, v + i)
  {
    assert View(t, root, v + i) == View(s, root, v + i);
  }

  /** Grew speaks of pages and nodes, not of entries; roots stay. */
  lemma GrewEntries(root: nat, s: Snap, t: Snap, u: Snap)
    requires Grew(root, s, t) && u.owner == t.owner && u.at == t.at && u.data == t.data
    ensures Grew(root, s, u) && forall k :: k in s.at ==> k in u.at && u.at[k] == s.at[k]
  {
  }

  lemma TopIsRoot(ptes: Tables, at: Nodes, root: nat)
    requires Tree(ptes, at) && Top(root) in at
    ensures at[Top(root)] == root
  {
    assert NodeOk(ptes, at, Top(root));
  }

  lemma NodeFacts(ptes: Tables, at: Nodes, k: Key)
    requires Tree(ptes, at) && k in at
    ensures NodeOk(ptes, at, k)
  {
  }
}
