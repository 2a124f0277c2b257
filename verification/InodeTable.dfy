/**
 The lifetime of in-memory inodes in kernel/fs.c: iget, idup, ilock, iunlock, iput, ialloc,
 iupdate and ireclaim, interleaved between any number of holders.

 What runs under itable.lock or under one buffer's lock is one step. iput's freeing branch
 runs without itable.lock, and its steps interleave with everything else. A reference is
 named by a number; its holder is whoever uses it.
 */
module InodeTable {
  import opened Runs

  datatype Num = Num(dev: nat, inum: nat)

  /** An inode's contents. gen tells apart the files that have had this inode number. */
  datatype Dinode = Dinode(kind: int, nlink: int, data: int, gen: nat)

  datatype Lock = Open | By(h: nat)

  datatype Entry = Entry(ref: int, num: Num, valid: bool, mem: Dinode, lock: Lock)

  /** Where a reference's holder is. Freeing counts the steps of iput's freeing branch. */
  datatype Phase = Idle | Loading | Holding(dirty: bool) | Freeing(step: nat)

  /** A reference to entry e, and the file it was taken for. */
  datatype Ref = Ref(e: nat, phase: Phase, gen: nat)

  /** claims are inodes that ialloc has marked on disk and not yet called iget for. */
  datatype State = State(disk: map<Num, Dinode>, table: seq<Entry>, refs: map<nat, Ref>, claims: map<nat, Num>)

  datatype Action =
    | Alloc(c: nat, n: Num, kind: int)      // ialloc, up to its brelse
    | GetClaim(c: nat, h: nat, e: nat)      // ialloc's iget
    | GetLinked(n: Num, h: nat, e: nat)     // iget of an inode that some directory names
    | Reclaim(n: Num, h: nat, e: nat)       // ireclaim's iget
    | Dup(h: nat, h': nat)                  // idup
    | Acquire(h: nat)                       // ilock: acquiresleep
    | Load(h: nat)                          // ilock: the rest
    | Modify(h: nat, m: Dinode)             // the holder changes the inode
    | Update(h: nat)                        // iupdate
    | Unlock(h: nat)                        // iunlock
    | Put(h: nat)                           // iput, up to the first release of itable.lock or its end
    | Truncate(h: nat)                      // iput: itrunc
    | Kill(h: nat)                          // iput: type = 0
    | WriteFree(h: nat)                     // iput: iupdate
    | Invalidate(h: nat)                    // iput: valid = 0
    | Release(h: nat)                       // iput: releasesleep
    | Drop(h: nat)                          // iput: the last decrement

  // ---------------------------------------------------------------- steps

  /** The entry iget uses: the one in use for n, or else an empty one. */
  ghost predicate SlotFor(table: seq<Entry>, n: Num, e: nat) {
    && e < |table|
    && if exists f :: 0 <= f < |table| && table[f].ref > 0 && table[f].num == n
       then table[e].ref > 0 && table[e].num == n
       else table[e].ref == 0
  }

  /** iget's scan: it fails only when no entry is left. */
  method Scan(table: seq<Entry>, n: Num) returns (e: nat, ok: bool)
    requires forall f :: 0 <= f < |table| ==> table[f].ref >= 0
    ensures ok ==> SlotFor(table, n, e)
    ensures !ok ==> forall f :: 0 <= f < |table| ==> table[f].ref > 0 && table[f].num != n
  {
    var empty: nat := |table|;
    for f := 0 to |table|
      invariant forall g :: 0 <= g < f ==> !(table[g].ref > 0 && table[g].num == n)
      invariant empty <= |table|
      invariant if empty == |table| then forall g :: 0 <= g < f ==> table[g].ref > 0
                else empty < |table| && table[empty].ref == 0
    {
      if table[f].ref > 0 && table[f].num == n {
        return f, true;
      }
      if empty == |table| && table[f].ref == 0 {
        empty := f;
      }
    }
    return empty, empty < |table|;
  }

  function Got(table: seq<Entry>, n: Num, e: nat): seq<Entry>
    requires e < |table|
  {
    if table[e].ref > 0 then table[e := table[e].(ref := table[e].ref + 1)]
    else table[e := Entry(1, n, false, table[e].mem, table[e].lock)]
  }

  predicate At(s: State, h: nat, phase: Phase) {
    h in s.refs && s.refs[h].phase == phase && s.refs[h].e < |s.table| && s.table[s.refs[h].e].num in s.disk
  }

  /** iput frees the inode when this reference is the last one to an inode without links. */
  predicate Frees(s: State, h: nat)
    requires h in s.refs && s.refs[h].e < |s.table|
  {
    var t := s.table[s.refs[h].e];
    t.ref == 1 && t.valid && t.mem.nlink == 0
  }

  /** Past writing the inode to disk as free. */
  predicate Late(phase: Phase) {
    phase.Freeing? && phase.step >= 3
  }

  predicate Refers(s: State, h: nat, n: Num) {
    h in s.refs && s.refs[h].e < |s.table| && s.table[s.refs[h].e].num == n
  }

  /** n is allocated without links or claim, and whoever still refers to it is past freeing it. */
  ghost predicate Orphan(s: State, n: Num) {
    && n in s.disk && s.disk[n].kind != 0 && s.disk[n].nlink == 0
    && (forall c :: c in s.claims ==> s.claims[c] != n)
    && (forall h :: Refers(s, h, n) ==> Late(s.refs[h].phase))
  }

  ghost predicate Enabled(s: State, a: Action) {
    match a
    case Alloc(c, n, kind) => c !in s.claims && n in s.disk && s.disk[n].kind == 0 && kind != 0
    case GetClaim(c, h, e) => c in s.claims && h !in s.refs && SlotFor(s.table, s.claims[c], e) && s.claims[c] in s.disk
    case GetLinked(n, h, e) => n in s.disk && s.disk[n].kind != 0 && s.disk[n].nlink > 0 && h !in s.refs &&
      SlotFor(s.table, n, e)
    case Reclaim(n, h, e) => Orphan(s, n) && h !in s.refs && SlotFor(s.table, n, e)
    case Dup(h, h') => h in s.refs && !s.refs[h].phase.Freeing? && s.refs[h].e < |s.table| && h' !in s.refs
    case Acquire(h) => At(s, h, Idle) && s.table[s.refs[h].e].lock == Open
    case Load(h) => At(s, h, Loading)
    case Modify(h, m) => (At(s, h, Holding(false)) || At(s, h, Holding(true))) &&
                         m.kind == s.table[s.refs[h].e].mem.kind && m.gen == s.table[s.refs[h].e].mem.gen
    case Update(h) => At(s, h, Holding(false)) || At(s, h, Holding(true))
    case Unlock(h) => At(s, h, Holding(false))
    case Put(h) => At(s, h, Idle)
    case Truncate(h) => At(s, h, Freeing(0))
    case Kill(h) => At(s, h, Freeing(1))
    case WriteFree(h) => At(s, h, Freeing(2))
    case Invalidate(h) => At(s, h, Freeing(3))
    case Release(h) => At(s, h, Freeing(4))
    case Drop(h) => At(s, h, Freeing(5))
  }

  function Moved(s: State, h: nat, phase: Phase): map<nat, Ref>
    requires h in s.refs
  {
    s.refs[h := s.refs[h].(phase := phase)]
  }

  function WithEntry(s: State, e: nat, t: Entry): seq<Entry>
    requires e < |s.table|
  {
    s.table[e := t]
  }

  /** A step of the holder of one reference, on its entry and its inode. */
  predicate IsLocal(s: State, a: Action) {
    match a
    case Alloc(_, _, _) => false
    case GetClaim(_, _, _) => false
    case GetLinked(_, _, _) => false
    case Reclaim(_, _, _) => false
    case Dup(_, _) => false
    case Drop(_) => false
    case Put(h) => h in s.refs && s.refs[h].e < |s.table| && Frees(s, h)
    case _ => true
  }

  function NewPhase(a: Action): Phase {
    match a
    case Acquire(_) => Loading
    case Load(_) => Holding(false)
    case Modify(_, _) => Holding(true)
    case Update(_) => Holding(false)
    case Unlock(_) => Idle
    case Put(_) => Freeing(0)
    case Truncate(_) => Freeing(1)
    case Kill(_) => Freeing(2)
    case WriteFree(_) => Freeing(3)
    case Invalidate(_) => Freeing(4)
    case _ => Freeing(5)
  }

  function NewEntry(s: State, a: Action): Entry
    requires IsLocal(s, a) && a.h in s.refs && s.refs[a.h].e < |s.table| && s.table[s.refs[a.h].e].num in s.disk
  {
    var t := s.table[s.refs[a.h].e];
    match a
    case Acquire(h) => t.(lock := By(h))
    case Load(_) => if t.valid then t else t.(valid := true, mem := s.disk[t.num])
    case Modify(_, m) => t.(mem := m)
    case Unlock(_) => t.(lock := Open)
    case Put(h) => t.(lock := By(h))
    case Truncate(_) => t.(mem := t.mem.(data := 0))
    case Kill(_) => t.(mem := t.mem.(kind := 0))
    case Invalidate(_) => t.(valid := false)
    case Release(_) => t.(lock := Open)
    case _ => t
  }

  /** itrunc and iupdate write the inode; the other steps leave it. */
  function NewDisk(s: State, a: Action): Dinode
    requires IsLocal(s, a) && a.h in s.refs && s.refs[a.h].e < |s.table| && s.table[s.refs[a.h].e].num in s.disk
  {
    var t := s.table[s.refs[a.h].e];
    if a.Update? || a.WriteFree? then t.mem else if a.Truncate? then t.mem.(data := 0) else s.disk[t.num]
  }

  /** The state after the holder of h has changed its phase, its entry and perhaps its inode on disk. */
  function Local(s: State, h: nat, phase: Phase, x: Entry, d: Dinode): State
    requires h in s.refs && s.refs[h].e < |s.table|
  {
    s.(disk := s.disk[s.table[s.refs[h].e].num := d], table := WithEntry(s, s.refs[h].e, x), refs := Moved(s, h, phase))
  }

  function Without(s: State, h: nat): State
    requires h in s.refs && s.refs[h].e < |s.table|
  {
    var t := s.table[s.refs[h].e];
    s.(table := WithEntry(s, s.refs[h].e, t.(ref := t.ref - 1)), refs := s.refs - {h})
  }

  function WithRef(s: State, n: Num, h: nat, e: nat): State
    requires n in s.disk && e < |s.table|
  {
    s.(table := Got(s.table, n, e), refs := s.refs[h := Ref(e, Idle, s.disk[n].gen)])
  }

  function Apply(s: State, a: Action): State
    requires Enabled(s, a)
  {
    match a
    case Alloc(c, n, kind) => s.(disk := s.disk[n := Dinode(kind, 0, 0, s.disk[n].gen + 1)], claims := s.claims[c := n])
    case GetClaim(c, h, e) => WithRef(s, s.claims[c], h, e).(claims := s.claims - {c})
    case GetLinked(n, h, e) => WithRef(s, n, h, e)
    case Reclaim(n, h, e) => WithRef(s, n, h, e)
    case Dup(h, h') =>
      var t := s.table[s.refs[h].e];
      s.(table := WithEntry(s, s.refs[h].e, t.(ref := t.ref + 1)), refs := s.refs[h' := s.refs[h].(phase := Idle)])
    case Drop(h) => Without(s, h)
    case Put(h) => if Frees(s, h) then Local(s, h, NewPhase(a), NewEntry(s, a), NewDisk(s, a)) else Without(s, h)
    case _ => Local(s, a.h, NewPhase(a), NewEntry(s, a), NewDisk(s, a))
  }

  // ---------------------------------------------------------------- the invariant

  /** The references to entry e. */
  ghost function Users(refs: map<nat, Ref>, e: nat): set<nat> {
    set h | h in refs && refs[h].e == e
  }

  predicate Locked(phase: Phase) {
    phase.Loading? || phase.Holding? || (phase.Freeing? && phase.step <= 4)
  }

  ghost predicate RefOk(s: State, h: nat)
    requires h in s.refs
  {
    var r := s.refs[h];
    && r.e < |s.table| && s.table[r.e].num in s.disk
    && var t, d := s.table[r.e], s.disk[s.table[r.e].num];
    && (t.lock == By(h) <==> Locked(r.phase))
    && (!Late(r.phase) ==> d.kind != 0 && r.gen == d.gen)
    && (r.phase.Loading? && t.valid ==> t.mem == d)
    && (r.phase.Holding? ==> t.valid && t.mem.gen == d.gen && t.mem.kind == d.kind && (!r.phase.dirty ==> t.mem == d))
    && (r.phase.Freeing? ==> r.phase.step <= 5)
    && (r.phase.Freeing? && !Late(r.phase) ==>
          t.ref == 1 && t.valid && t.mem.nlink == 0 && d.nlink == 0 && t.mem.gen == d.gen &&
            (if r.phase.step == 2 then t.mem.kind == 0 else t.mem == d))
    && (r.phase == Freeing(4) ==> !t.valid)
  }

  ghost predicate EntryOk(s: State, e: nat)
    requires e < |s.table|
  {
    var t := s.table[e];
    && t.ref == |Users(s.refs, e)|
    && (t.lock.By? ==> t.lock.h in s.refs && s.refs[t.lock.h].e == e)
    && (t.ref > 0 && t.valid && t.lock == Open ==> t.num in s.disk && t.mem == s.disk[t.num] && t.mem.kind != 0)
  }

  /** Nobody but a holder on its way out has an inode that is only claimed. */
  ghost predicate ClaimOk(s: State, c: nat)
    requires c in s.claims
  {
    var n := s.claims[c];
    && n in s.disk && s.disk[n].kind != 0 && s.disk[n].nlink == 0
    && (forall h :: h in s.refs && s.refs[h].e < |s.table| && s.table[s.refs[h].e].num == n ==> Late(s.refs[h].phase))
    && (forall c' :: c' in s.claims && s.claims[c'] == n ==> c' == c)
  }

  /** At most one entry in use for an inode. */
  ghost predicate Unique(table: seq<Entry>) {
    forall e, f ::
      0 <= e < |table| && 0 <= f < |table| && table[e].ref > 0 && table[f].ref > 0 && table[e].num == table[f].num
      ==> e == f
  }

  ghost predicate Inv(s: State) {
    && (forall h {:trigger RefOk(s, h)} :: h in s.refs ==> RefOk(s, h))
    && (forall e: nat {:trigger EntryOk(s, e)} :: e < |s.table| ==> EntryOk(s, e))
    && (forall c {:trigger ClaimOk(s, c)} :: c in s.claims ==> ClaimOk(s, c))
    && Unique(s.table)
  }

  ghost predicate Init(s: State) {
    && (forall e :: 0 <= e < |s.table| ==> s.table[e].ref == 0 && s.table[e].lock == Open)
    && s.refs == map[] && s.claims == map[]
  }

  lemma InitInv(s: State)
    requires Init(s)
    ensures Inv(s)
  {
    forall e: nat | e < |s.table| ensures EntryOk(s, e) {
      assert Users(s.refs, e) == {};
    }
  }

  // ---------------------------------------------------------------- counting references

  lemma UsersAdd(refs: map<nat, Ref>, h: nat, r: Ref, e: nat)
    requires h !in refs
    ensures Users(refs[h := r], e) == if r.e == e then Users(refs, e) + {h} else Users(refs, e)
    ensures h !in Users(refs, e)
  {
  }

  lemma UsersDrop(refs: map<nat, Ref>, h: nat, e: nat)
    requires h in refs
    ensures Users(refs - {h}, e) == if refs[h].e == e then Users(refs, e) - {h} else Users(refs, e)
    ensures refs[h].e == e <==> h in Users(refs, e)
  {
  }

  lemma UsersMove(refs: map<nat, Ref>, h: nat, phase: Phase, e: nat)
    requires h in refs
    ensures Users(refs[h := refs[h].(phase := phase)], e) == Users(refs, e)
  {
  }

  /** The only reference counted is the only one there is. */
  lemma OnlyUser(s: State, g: nat, h: nat)
    requires Inv(s) && g in s.refs && h in s.refs && s.refs[g].e < |s.table| && s.refs[h].e < |s.table|
    requires s.table[s.refs[g].e].num == s.table[s.refs[h].e].num && s.table[s.refs[h].e].ref == 1
    ensures g == h
  {
    InUse(s, g);
    InUse(s, h);
    var e := s.refs[h].e;
    assert EntryOk(s, e);
    assert g in Users(s.refs, e) && h in Users(s.refs, e);
    var others := Users(s.refs, e) - {g};
    assert |others| == 0;
    assert h !in others;
  }

  lemma InUse(s: State, h: nat)
    requires Inv(s) && h in s.refs
    ensures s.refs[h].e < |s.table| && s.table[s.refs[h].e].ref > 0 && RefOk(s, h) && EntryOk(s, s.refs[h].e)
  {
    assert RefOk(s, h);
    assert EntryOk(s, s.refs[h].e);
    assert h in Users(s.refs, s.refs[h].e);
  }

  /** Two references to one inode share an entry. */
  lemma SameEntry(s: State, g: nat, h: nat)
    requires Inv(s) && g in s.refs && h in s.refs && s.refs[g].e < |s.table| && s.refs[h].e < |s.table|
    requires s.table[s.refs[g].e].num == s.table[s.refs[h].e].num
    ensures s.refs[g].e == s.refs[h].e
  {
    InUse(s, g);
    InUse(s, h);
  }

  // ---------------------------------------------------------------- steps of one holder

  /** Entry x still stands for the same inode and references, and h's holder alone has to do with its lock. */
  ghost predicate Mine(s: State, h: nat, phase: Phase, x: Entry, d: Dinode)
    requires h in s.refs && s.refs[h].e < |s.table| && s.table[s.refs[h].e].num in s.disk
  {
    var t := s.table[s.refs[h].e];
    && x.num == t.num && x.ref == t.ref && (t.lock == Open || t.lock == By(h)) && (x.lock == Open || x.lock == By(h))
    && (d == s.disk[t.num] || t.ref == 1 || (d.kind != 0 && d.gen == s.disk[t.num].gen))
    && (Late(s.refs[h].phase) ==> d == s.disk[t.num] && Late(phase))
  }

  lemma LocalRef(s: State, h: nat, phase: Phase, x: Entry, d: Dinode, g: nat)
    requires Inv(s) && h in s.refs && g in s.refs && g != h
    requires s.refs[h].e < |s.table| && s.table[s.refs[h].e].num in s.disk
    requires Mine(s, h, phase, x, d)
    ensures RefOk(Local(s, h, phase, x, d), g)
  {
    hide Inv, EntryOk;
    InUse(s, g);
    InUse(s, h);
    if s.table[s.refs[g].e].num == s.table[s.refs[h].e].num {
      SameEntry(s, g, h);
      assert s.table[s.refs[h].e].ref != 1 by {
        if s.table[s.refs[h].e].ref == 1 {
          OnlyUser(s, g, h);
          assert false;
        }
      }
    }
  }

  lemma LocalEntry(s: State, h: nat, phase: Phase, x: Entry, d: Dinode, e: nat)
    requires Inv(s) && h in s.refs && s.refs[h].e < |s.table| && s.table[s.refs[h].e].num in s.disk
    requires Mine(s, h, phase, x, d) && e < |s.table| && e != s.refs[h].e
    ensures EntryOk(Local(s, h, phase, x, d), e)
  {
    assert EntryOk(s, e);
    InUse(s, h);
    UsersMove(s.refs, h, phase, e);
  }

  lemma LocalClaim(s: State, h: nat, phase: Phase, x: Entry, d: Dinode, c: nat)
    requires Inv(s) && h in s.refs && s.refs[h].e < |s.table| && s.table[s.refs[h].e].num in s.disk
    requires Mine(s, h, phase, x, d) && c in s.claims
    ensures ClaimOk(Local(s, h, phase, x, d), c)
  {
    assert ClaimOk(s, c);
    var t := Local(s, h, phase, x, d);
    assert s.claims[c] == s.table[s.refs[h].e].num ==> Late(s.refs[h].phase);
    forall g | g in t.refs && t.refs[g].e < |t.table| && t.table[t.refs[g].e].num == t.claims[c]
      ensures Late(t.refs[g].phase)
    {
      assert s.table[s.refs[g].e].num == s.claims[c];
    }
  }

  lemma LocalStep(s: State, h: nat, phase: Phase, x: Entry, d: Dinode)
    requires Inv(s) && h in s.refs && s.refs[h].e < |s.table| && s.table[s.refs[h].e].num in s.disk
    requires Mine(s, h, phase, x, d)
    requires RefOk(Local(s, h, phase, x, d), h) && EntryOk(Local(s, h, phase, x, d), s.refs[h].e)
    ensures Inv(Local(s, h, phase, x, d))
  {
    hide RefOk, EntryOk, ClaimOk, Mine;
    var t := Local(s, h, phase, x, d);
    forall g | g in t.refs ensures RefOk(t, g) {
      if g != h {
        LocalRef(s, h, phase, x, d, g);
      }
    }
    forall e: nat | e < |t.table| ensures EntryOk(t, e) {
      if e != s.refs[h].e {
        LocalEntry(s, h, phase, x, d, e);
      }
    }
    forall c | c in t.claims ensures ClaimOk(t, c) {
      LocalClaim(s, h, phase, x, d, c);
    }
    assert Unique(t.table) by { LocalUnique(s, h, phase, x, d); }
  }

  lemma LocalUnique(s: State, h: nat, phase: Phase, x: Entry, d: Dinode)
    requires Inv(s) && h in s.refs && s.refs[h].e < |s.table| && s.table[s.refs[h].e].num in s.disk
    requires Mine(s, h, phase, x, d)
    ensures Unique(Local(s, h, phase, x, d).table)
  {
  }

  /** iput's acquiresleep does not wait: the last reference finds the lock open. */
  lemma PutDoesNotWait(s: State, h: nat)
    requires Inv(s) && At(s, h, Idle) && Frees(s, h)
    ensures s.table[s.refs[h].e].lock == Open
  {
    InUse(s, h);
    var t := s.table[s.refs[h].e];
    if t.lock.By? {
      OnlyUser(s, t.lock.h, h);
    }
  }

  lemma LocalMine(s: State, a: Action)
    requires Inv(s) && Enabled(s, a) && IsLocal(s, a)
    requires a.h in s.refs && s.refs[a.h].e < |s.table| && s.table[s.refs[a.h].e].num in s.disk
    ensures Mine(s, a.h, NewPhase(a), NewEntry(s, a), NewDisk(s, a))
  {
    hide Inv;
    InUse(s, a.h);
    if a.Put? {
      PutDoesNotWait(s, a.h);
    }
  }

  lemma LocalRefOk(s: State, a: Action)
    requires Inv(s) && Enabled(s, a) && IsLocal(s, a)
    requires a.h in s.refs && s.refs[a.h].e < |s.table| && s.table[s.refs[a.h].e].num in s.disk
    ensures RefOk(Local(s, a.h, NewPhase(a), NewEntry(s, a), NewDisk(s, a)), a.h)
  {
    hide Inv;
    InUse(s, a.h);
    if a.Put? {
      PutDoesNotWait(s, a.h);
    }
  }

  lemma LocalEntryOk(s: State, a: Action)
    requires Inv(s) && Enabled(s, a) && IsLocal(s, a)
    requires a.h in s.refs && s.refs[a.h].e < |s.table| && s.table[s.refs[a.h].e].num in s.disk
    ensures EntryOk(Local(s, a.h, NewPhase(a), NewEntry(s, a), NewDisk(s, a)), s.refs[a.h].e)
  {
    hide Inv;
    InUse(s, a.h);
    UsersMove(s.refs, a.h, NewPhase(a), s.refs[a.h].e);
    if a.Put? {
      PutDoesNotWait(s, a.h);
    }
  }

  lemma LocalKeeps(s: State, a: Action)
    requires Inv(s) && Enabled(s, a) && IsLocal(s, a)
    ensures Inv(Apply(s, a))
  {
    hide Inv, RefOk, EntryOk, Mine;
    InUse(s, a.h);
    LocalMine(s, a);
    LocalRefOk(s, a);
    LocalEntryOk(s, a);
    LocalStep(s, a.h, NewPhase(a), NewEntry(s, a), NewDisk(s, a));
  }

  // ---------------------------------------------------------------- steps that count references

  lemma AllocKeeps(s: State, c: nat, n: Num, kind: int)
    requires Inv(s) && Enabled(s, Alloc(c, n, kind))
    ensures Inv(Apply(s, Alloc(c, n, kind)))
  {
    var t := Apply(s, Alloc(c, n, kind));
    forall h | h in t.refs ensures RefOk(t, h) {
      assert RefOk(s, h);
    }
    forall e: nat | e < |t.table| ensures EntryOk(t, e) {
      assert EntryOk(s, e);
    }
    forall b | b in t.claims ensures ClaimOk(t, b) {
      assert b != c ==> ClaimOk(s, b);
      forall h | h in t.refs && t.refs[h].e < |t.table| && t.table[t.refs[h].e].num == t.claims[b]
        ensures Late(t.refs[h].phase)
      {
        assert RefOk(s, h);
      }
      forall b' | b' in t.claims && t.claims[b'] == t.claims[b] ensures b' == b {
        assert b' != c ==> ClaimOk(s, b');
      }
    }
  }

  /** n is an inode that may be taken: alive, and with no reference to it that is about to free it. */
  ghost predicate Takeable(s: State, n: Num) {
    && n in s.disk && s.disk[n].kind != 0
    && forall h :: Refers(s, h, n) && s.refs[h].phase.Freeing? ==> Late(s.refs[h].phase)
  }

  lemma GotRef(s: State, n: Num, h: nat, e: nat, g: nat)
    requires Inv(s) && Takeable(s, n) && h !in s.refs && SlotFor(s.table, n, e) && (g == h || g in s.refs)
    ensures RefOk(WithRef(s, n, h, e), g)
  {
    hide Inv;
    assert EntryOk(s, e) by { InvEntry(s, e); }
    if g != h {
      InUse(s, g);
    }
  }

  lemma GotEntry(s: State, n: Num, h: nat, e: nat, f: nat)
    requires Inv(s) && h !in s.refs && SlotFor(s.table, n, e) && f < |s.table| && n in s.disk
    ensures EntryOk(WithRef(s, n, h, e), f)
  {
    hide Inv;
    assert EntryOk(s, f) by { InvEntry(s, f); }
    UsersAdd(s.refs, h, Ref(e, Idle, s.disk[n].gen), f);
  }

  lemma InvEntry(s: State, e: nat)
    requires Inv(s) && e < |s.table|
    ensures EntryOk(s, e)
  {
  }

  lemma GotUnique(s: State, n: Num, e: nat)
    requires Unique(s.table) && SlotFor(s.table, n, e)
    ensures Unique(Got(s.table, n, e))
  {
  }

  /** A claim on another inode is not disturbed by taking one. */
  lemma GotClaim(s: State, n: Num, h: nat, e: nat, c: nat)
    requires Inv(s) && SlotFor(s.table, n, e) && n in s.disk && c in s.claims && s.claims[c] != n && h !in s.refs
    ensures ClaimOk(WithRef(s, n, h, e), c)
  {
    assert ClaimOk(s, c);
    var t := WithRef(s, n, h, e);
    forall g | g in t.refs && t.refs[g].e < |t.table| && t.table[t.refs[g].e].num == t.claims[c]
      ensures Late(t.refs[g].phase)
    {
      assert g in s.refs;
      InUse(s, g);
    }
  }

  lemma GetClaimKeeps(s: State, c: nat, h: nat, e: nat)
    requires Inv(s) && Enabled(s, GetClaim(c, h, e))
    ensures Inv(Apply(s, GetClaim(c, h, e)))
  {
    assert e < |s.table|;
    hide RefOk, EntryOk, SlotFor, Unique;
    var n := s.claims[c];
    var u, t := WithRef(s, n, h, e), Apply(s, GetClaim(c, h, e));
    assert ClaimOk(s, c);
    forall g | g in t.refs ensures RefOk(t, g) {
      GotRef(s, n, h, e, g);
      SameRef(u, t, g);
    }
    forall f: nat | f < |t.table| ensures EntryOk(t, f) {
      GotEntry(s, n, h, e, f);
      SameSlot(u, t, f);
    }
    forall b | b in t.claims ensures ClaimOk(t, b) {
      GotClaim(s, n, h, e, b);
    }
    GotUnique(s, n, e);
  }

  lemma SameRef(s: State, t: State, h: nat)
    requires h in s.refs && RefOk(s, h) && t == s.(claims := t.claims)
    ensures RefOk(t, h)
  {
  }

  lemma SameSlot(s: State, t: State, e: nat)
    requires e < |s.table| && EntryOk(s, e) && t == s.(claims := t.claims)
    ensures EntryOk(t, e)
  {
  }

  lemma LinkedTakeable(s: State, n: Num)
    requires Inv(s) && n in s.disk && s.disk[n].kind != 0 && s.disk[n].nlink > 0
    ensures Takeable(s, n) && forall c :: c in s.claims ==> s.claims[c] != n
  {
    forall h | h in s.refs && s.refs[h].e < |s.table| && s.table[s.refs[h].e].num == n && s.refs[h].phase.Freeing?
      ensures Late(s.refs[h].phase)
    {
      assert RefOk(s, h);
    }
    forall c | c in s.claims ensures s.claims[c] != n {
      assert ClaimOk(s, c);
    }
  }

  lemma TakenKeeps(s: State, n: Num, h: nat, e: nat)
    requires Inv(s) && Takeable(s, n) && h !in s.refs && SlotFor(s.table, n, e)
    requires forall c :: c in s.claims ==> s.claims[c] != n
    ensures e < |s.table| && Inv(WithRef(s, n, h, e))
  {
    assert e < |s.table| && n in s.disk;
    hide RefOk, EntryOk, SlotFor, Unique, ClaimOk, Takeable;
    var t := WithRef(s, n, h, e);
    forall g | g in t.refs ensures RefOk(t, g) {
      GotRef(s, n, h, e, g);
    }
    forall f: nat | f < |t.table| ensures EntryOk(t, f) {
      GotEntry(s, n, h, e, f);
    }
    forall b | b in t.claims ensures ClaimOk(t, b) {
      GotClaim(s, n, h, e, b);
    }
    GotUnique(s, n, e);
  }

  lemma DupRef(s: State, h: nat, h': nat, g: nat)
    requires Inv(s) && Enabled(s, Dup(h, h')) && (g == h' || g in s.refs)
    ensures RefOk(Apply(s, Dup(h, h')), g)
  {
    hide Inv;
    InUse(s, h);
    if g != h' {
      InUse(s, g);
      if s.refs[g].e == s.refs[h].e && s.table[s.refs[h].e].ref == 1 {
        OnlyUser(s, g, h);
      }
    }
  }

  lemma DupEntry(s: State, h: nat, h': nat, e: nat)
    requires Inv(s) && Enabled(s, Dup(h, h')) && e < |s.table|
    ensures EntryOk(Apply(s, Dup(h, h')), e)
  {
    hide Inv;
    InUse(s, h);
    InvEntry(s, e);
    UsersAdd(s.refs, h', s.refs[h].(phase := Idle), e);
  }

  lemma DupClaim(s: State, h: nat, h': nat, c: nat)
    requires Inv(s) && Enabled(s, Dup(h, h')) && c in s.claims
    ensures ClaimOk(Apply(s, Dup(h, h')), c)
  {
    assert ClaimOk(s, c);
    var t := Apply(s, Dup(h, h'));
    assert s.table[s.refs[h].e].num != s.claims[c];
    forall g | g in t.refs && t.refs[g].e < |t.table| && t.table[t.refs[g].e].num == t.claims[c]
      ensures Late(t.refs[g].phase)
    {
      assert g in s.refs && t.refs[g] == s.refs[g];
    }
  }

  lemma DupKeeps(s: State, h: nat, h': nat)
    requires Inv(s) && Enabled(s, Dup(h, h'))
    ensures Inv(Apply(s, Dup(h, h')))
  {
    InUse(s, h);
    hide RefOk, EntryOk, ClaimOk;
    var t := Apply(s, Dup(h, h'));
    forall g | g in t.refs ensures RefOk(t, g) {
      DupRef(s, h, h', g);
    }
    forall e: nat | e < |t.table| ensures EntryOk(t, e) {
      DupEntry(s, h, h', e);
    }
    forall c | c in t.claims ensures ClaimOk(t, c) {
      DupClaim(s, h, h', c);
    }
  }

  lemma WithoutKeeps(s: State, h: nat)
    requires Inv(s) && h in s.refs && s.refs[h].e < |s.table| && !Locked(s.refs[h].phase)
    ensures Inv(Without(s, h))
  {
    var t := Without(s, h);
    InUse(s, h);
    forall g | g in t.refs ensures RefOk(t, g) {
      InUse(s, g);
      if s.refs[g].e == s.refs[h].e && s.table[s.refs[h].e].ref == 1 {
        OnlyUser(s, g, h);
        assert false;
      }
    }
    forall e: nat | e < |t.table| ensures EntryOk(t, e) {
      assert EntryOk(s, e);
      UsersDrop(s.refs, h, e);
    }
    forall c | c in t.claims ensures ClaimOk(t, c) {
      assert ClaimOk(s, c);
    }
  }

  lemma StepKeeps(s: State, a: Action)
    requires Inv(s) && Enabled(s, a)
    ensures Inv(Apply(s, a))
  {
    hide Inv, RefOk, EntryOk, ClaimOk;
    match a
    case Alloc(c, n, kind) => AllocKeeps(s, c, n, kind);
    case GetClaim(c, h, e) => GetClaimKeeps(s, c, h, e);
    case GetLinked(n, h, e) => LinkedTakeable(s, n); TakenKeeps(s, n, h, e);
    case Reclaim(n, h, e) => TakenKeeps(s, n, h, e);
    case Dup(h, h') => DupKeeps(s, h, h');
    case Drop(h) => WithoutKeeps(s, h);
    case Put(h) => if Frees(s, h) { LocalKeeps(s, a); } else { WithoutKeeps(s, h); }
    case _ => LocalKeeps(s, a);
  }

  // ---------------------------------------------------------------- whole runs

  ghost predicate Next(s: State, t: State) {
    exists a :: Enabled(s, a) && t == Apply(s, a)
  }

  /** ss is a run from the start. */
  ghost predicate Behavior(ss: seq<State>) {
    Run(Next, ss) && Init(ss[0])
  }

  lemma RunKeeps(ss: seq<State>, k: nat)
    requires Behavior(ss) && k < |ss|
    ensures Inv(ss[k])
  {
    InitInv(ss[0]);
    forall s, t | Inv(s) && Next(s, t) ensures Inv(t) {
      var a :| Enabled(s, a) && t == Apply(s, a);
      StepKeeps(s, a);
    }
    Always(Next, Inv, ss, k);
  }

  /**
   In every run: one entry per inode; a holder with the lock sees the file its reference was
   taken for, whatever iput was doing to the number's former file; and that is what is on
   disk, unless the holder itself has changed it since.
   */
  lemma HolderSeesItsFile(ss: seq<State>, k: nat, h: nat)
    requires Behavior(ss) && k < |ss| && h in ss[k].refs && ss[k].refs[h].phase.Holding?
    ensures var t := ss[k];
      && t.refs[h].e < |t.table| && t.table[t.refs[h].e].num in t.disk && Unique(t.table)
      && var x := t.table[t.refs[h].e];
         && x.valid && x.mem.kind != 0 && x.mem.gen == t.refs[h].gen == t.disk[x.num].gen
         && (!t.refs[h].phase.dirty ==> x.mem == t.disk[x.num])
  {
    RunKeeps(ss, k);
    assert RefOk(ss[k], h);
  }

  /** In every run ilock finds a type: its panic is not reached. */
  lemma LoadFindsType(ss: seq<State>, k: nat, h: nat)
    requires Behavior(ss) && k < |ss| && Enabled(ss[k], Load(h))
    ensures var t := ss[k]; Apply(t, Load(h)).table[t.refs[h].e].mem.kind != 0 && t.table[t.refs[h].e].ref >= 1
  {
    RunKeeps(ss, k);
    InUse(ss[k], h);
  }

  /** In every run two holders never have the same inode locked. */
  lemma OneHolder(ss: seq<State>, k: nat, g: nat, h: nat)
    requires Behavior(ss) && k < |ss|
    requires var t := ss[k];
      && g in t.refs && h in t.refs && t.refs[g].e < |t.table| && t.refs[h].e < |t.table|
      && t.table[t.refs[g].e].num == t.table[t.refs[h].e].num && Locked(t.refs[g].phase) && Locked(t.refs[h].phase)
    ensures g == h
  {
    RunKeeps(ss, k);
    SameEntry(ss[k], g, h);
    assert RefOk(ss[k], g) && RefOk(ss[k], h);
  }

  // ---------------------------------------------------------------- who frees an inode without links

  /** h's holder is about to put the last reference to n, which has no links, that is not past freeing it. */
  ghost predicate LastPut(s: State, h: nat, n: Num) {
    && At(s, h, Idle) && Refers(s, h, n) && s.disk[n].nlink == 0
    && forall g :: Refers(s, g, n) && g != h ==> Late(s.refs[g].phase)
  }

  /** What iput's test finds out: the inode was read, and nobody is still on the way out of its former file. */
  lemma FreesExactly(s: State, h: nat, n: Num)
    requires Inv(s) && LastPut(s, h, n)
    ensures Frees(s, h) <==> s.table[s.refs[h].e].valid && forall g :: Refers(s, g, n) ==> g == h
  {
    hide Inv;
    InUse(s, h);
    var e := s.refs[h].e;
    if s.table[e].ref == 1 {
      forall g | Refers(s, g, n) ensures g == h {
        OnlyUser(s, g, h);
      }
      if s.table[e].lock.By? {
        OnlyUser(s, s.table[e].lock.h, h);
      }
    } else {
      if forall g :: Refers(s, g, n) ==> g == h {
        assert forall g :: g in Users(s.refs, e) ==> Refers(s, g, n);
        assert Users(s.refs, e) == {h};
      }
    }
  }

  lemma OrphanWithout(s: State, h: nat, n: Num)
    requires Inv(s) && h in s.refs && s.refs[h].e < |s.table| && s.table[s.refs[h].e].num in s.disk
    requires s.refs[h].phase == Idle || Late(s.refs[h].phase)
    ensures Orphan(Without(s, h), n) <==> Orphan(s, n) || LastPut(s, h, n)
  {
    hide Inv;
    InUse(s, h);
    var t := Without(s, h);
    assert forall g :: Refers(t, g, n) <==> Refers(s, g, n) && g != h;
    if LastPut(s, h, n) {
      forall c | c in s.claims ensures s.claims[c] != n {
        ClaimFacts(s, c, h);
      }
    }
    if Orphan(t, n) && !Orphan(s, n) {
      assert Refers(s, h, n);
    }
  }

  lemma ClaimFacts(s: State, c: nat, h: nat)
    requires Inv(s) && c in s.claims && h in s.refs && s.refs[h].e < |s.table| && !Late(s.refs[h].phase)
    ensures s.claims[c] != s.table[s.refs[h].e].num
  {
    assert ClaimOk(s, c);
  }

  lemma OrphanLocal(s: State, a: Action, n: Num)
    requires Inv(s) && Enabled(s, a) && IsLocal(s, a)
    ensures Orphan(Apply(s, a), n) <==> Orphan(s, n)
  {
    hide Inv, EntryOk;
    var h := a.h;
    InUse(s, h);
    var t := Apply(s, a);
    assert forall g :: Refers(t, g, n) <==> Refers(s, g, n);
    if Refers(s, h, n) {
      if Late(s.refs[h].phase) {
        assert t.disk[n] == s.disk[n];
      } else {
        assert !Orphan(s, n);
        assert a.WriteFree? ==> t.disk[n].kind == 0;
        assert !a.WriteFree? ==> !Late(t.refs[h].phase);
      }
    }
  }

  lemma OrphanTaken(s: State, m: Num, h: nat, e: nat, n: Num)
    requires Inv(s) && h !in s.refs && SlotFor(s.table, m, e) && m in s.disk
    ensures Orphan(WithRef(s, m, h, e), n) <==> Orphan(s, n) && m != n
  {
    var t := WithRef(s, m, h, e);
    forall g | g in s.refs ensures Refers(t, g, n) <==> Refers(s, g, n) {
      InUse(s, g);
    }
    assert Refers(t, h, n) <==> m == n;
  }

  lemma OrphanClaimed(s: State, c: nat, h: nat, e: nat, n: Num)
    requires Inv(s) && Enabled(s, GetClaim(c, h, e))
    ensures Orphan(Apply(s, GetClaim(c, h, e)), n) <==> Orphan(s, n)
  {
    OrphanTaken(s, s.claims[c], h, e, n);
    var u, t := WithRef(s, s.claims[c], h, e), Apply(s, GetClaim(c, h, e));
    assert forall g :: Refers(t, g, n) <==> Refers(u, g, n);
    if s.claims[c] == n {
      assert Refers(t, h, n) && !Late(t.refs[h].phase);
    } else {
      assert forall b :: b in s.claims ==> b == c || (b in t.claims && t.claims[b] == s.claims[b]);
    }
  }

  lemma OrphanAlloc(s: State, c: nat, m: Num, kind: int, n: Num)
    requires Inv(s) && Enabled(s, Alloc(c, m, kind))
    ensures Orphan(Apply(s, Alloc(c, m, kind)), n) <==> Orphan(s, n)
  {
    var t := Apply(s, Alloc(c, m, kind));
    assert t.claims[c] == m && forall b :: b in s.claims ==> b in t.claims && t.claims[b] == s.claims[b];
    assert forall g :: Refers(t, g, n) <==> Refers(s, g, n);
  }

  lemma OrphanDup(s: State, h: nat, h': nat, n: Num)
    requires Inv(s) && Enabled(s, Dup(h, h'))
    ensures Orphan(Apply(s, Dup(h, h')), n) <==> Orphan(s, n)
  {
    var t := Apply(s, Dup(h, h'));
    assert forall g :: g != h' ==> (Refers(t, g, n) <==> Refers(s, g, n));
    if Refers(s, h, n) {
      assert Refers(t, h', n) && !Late(s.refs[h].phase);
    }
  }

  /**
   The inodes without links that nobody will free, after any step: those there were, unless
   ireclaim took this one, and the one whose last reference was put while iput's test failed.
   */
  lemma OrphanStep(s: State, a: Action, n: Num)
    requires Inv(s) && Enabled(s, a)
    ensures Orphan(Apply(s, a), n) <==>
      || (Orphan(s, n) && !(a.Reclaim? && a.n == n))
      || (a.Put? && LastPut(s, a.h, n) && !Frees(s, a.h))
  {
    hide Inv, Orphan, LastPut;
    match a
    case Alloc(c, m, kind) => OrphanAlloc(s, c, m, kind, n);
    case GetClaim(c, h, e) => OrphanClaimed(s, c, h, e, n);
    case GetLinked(m, h, e) => OrphanTaken(s, m, h, e, n); LinkedNoOrphan(s, m);
    case Reclaim(m, h, e) => OrphanIn(s, m); OrphanTaken(s, m, h, e, n);
    case Dup(h, h') => OrphanDup(s, h, h', n);
    case Drop(h) => OrphanWithout(s, h, n); IdlePut(s, h, n);
    case Put(h) => if Frees(s, h) { OrphanLocal(s, a, n); } else { OrphanWithout(s, h, n); }
    case _ => OrphanLocal(s, a, n);
  }

  lemma LinkedNoOrphan(s: State, n: Num)
    requires n in s.disk && s.disk[n].nlink > 0
    ensures !Orphan(s, n)
  {
  }

  lemma OrphanIn(s: State, n: Num)
    requires Orphan(s, n)
    ensures n in s.disk
  {
  }

  lemma IdlePut(s: State, h: nat, n: Num)
    ensures LastPut(s, h, n) ==> h in s.refs && s.refs[h].phase == Idle
  {
  }

  /**
   In every run, a step leaves an inode without links to nobody exactly when it puts the last
   reference that could free it and the inode was not read through this entry or another
   holder is still between iput's write and its last decrement.
   */
  lemma OrphanMade(ss: seq<State>, k: nat, a: Action, n: Num)
    requires Behavior(ss) && k < |ss| && Enabled(ss[k], a)
    ensures var s := ss[k];
      Orphan(Apply(s, a), n) && !Orphan(s, n) <==>
        && a.Put? && LastPut(s, a.h, n)
        && (!s.table[s.refs[a.h].e].valid || exists g :: Refers(s, g, n) && g != a.h)
  {
    hide Inv;
    var s := ss[k];
    RunKeeps(ss, k);
    OrphanStep(s, a, n);
    if a.Put? && LastPut(s, a.h, n) {
      FreesExactly(s, a.h, n);
      assert !Orphan(s, n);
    }
  }

  /**
   In every run, when iput's test succeeds the holder has the inode to itself, without links,
   until its iupdate; that write makes the inode free.
   */
  lemma FreedForGood(ss: seq<State>, k: nat, h: nat, n: Num)
    requires Behavior(ss) && k < |ss| && Refers(ss[k], h, n)
    requires ss[k].refs[h].phase.Freeing? && ss[k].refs[h].phase.step < 3
    ensures var s := ss[k];
      && n in s.disk && s.disk[n].nlink == 0 && (forall g :: Refers(s, g, n) ==> g == h)
      && (Enabled(s, WriteFree(h)) ==>
        Apply(s, WriteFree(h)).disk == s.disk[n := Apply(s, WriteFree(h)).disk[n]] &&
        Apply(s, WriteFree(h)).disk[n].kind == 0)
  {
    RunKeeps(ss, k);
    InUse(ss[k], h);
    forall g | Refers(ss[k], g, n) ensures g == h {
      OnlyUser(ss[k], g, h);
    }
  }

  /** Until its first iget, nobody changes an inode that ialloc has claimed. */
  lemma ClaimKept(s: State, a: Action, c: nat)
    requires Inv(s) && Enabled(s, a) && c in s.claims && c in Apply(s, a).claims
    ensures var n, t := s.claims[c], Apply(s, a);
      t.claims[c] == n && n in s.disk && n in t.disk && t.disk[n] == s.disk[n]
  {
    assert ClaimOk(s, c);
    if IsLocal(s, a) {
      assert RefOk(s, a.h);
    }
  }

  lemma ClaimMade(s: State, c: nat, n: Num, kind: nat)
    requires Enabled(s, Alloc(c, n, kind))
    ensures var t := Apply(s, Alloc(c, n, kind));
      && c in t.claims && t.claims[c] == n && n in t.disk && n in s.disk
      && t.disk[n] == Dinode(kind, 0, 0, s.disk[n].gen + 1)
  {
  }

  /** In every run, the first iget after ialloc finds an inode of the type asked for, with no links and no data. */
  lemma {:induction false} AllocatedAs(ss: seq<State>, j: nat, k: nat, c: nat, n: Num, kind: nat)
    requires Behavior(ss) && j < k < |ss| && Enabled(ss[j], Alloc(c, n, kind))
    requires ss[j + 1] == Apply(ss[j], Alloc(c, n, kind)) && forall m :: j < m <= k ==> c in ss[m].claims
    ensures ss[k].claims[c] == n && n in ss[k].disk && n in ss[j].disk
    ensures ss[k].disk[n] == Dinode(kind, 0, 0, ss[j].disk[n].gen + 1)
    decreases k
  {
    hide Inv, Init;
    if k == j + 1 {
      ClaimMade(ss[j], c, n, kind);
    } else {
      hide Enabled, Apply;
      AllocatedAs(ss, j, k - 1, c, n, kind);
      RunKeeps(ss, k - 1);
      var s, t := ss[k - 1], ss[k - 1 + 1];
      assert Next(s, t);
      var a :| Enabled(s, a) && t == Apply(s, a);
      ClaimKept(s, a, c);
    }
  }

  // ---------------------------------------------------------------- one holder at work

  /** The state s, but for inode n and reference h, which is to the first entry. */
  function With(s: State, n: Num, d: Dinode, x: Entry, h: nat, r: Ref): State
    requires |s.table| > 0
  {
    State(s.disk[n := d], s.table[0 := x], s.refs[h := r], s.claims)
  }

  lemma Go(s: State, t: State, a: Action, u: State)
    requires Reaches(Next, s, t) && Enabled(t, a) && u == Apply(t, a)
    ensures Reaches(Next, s, u)
  {
    assert Next(t, u);
    Onward(Next, s, t, u);
  }

  /** A step of that reference's holder. */
  lemma GoWith(o: State, s: State, n: Num, d: Dinode, x: Entry, h: nat, r: Ref, a: Action, d': Dinode, x': Entry)
    requires |s.table| > 0 && r.e == 0 && x.num == n
    requires var t := With(s, n, d, x, h, r);
      && Reaches(Next, o, t) && Enabled(t, a) && IsLocal(t, a) && a.h == h && d' == NewDisk(t, a) &&
        x' == NewEntry(t, a)
    ensures Reaches(Next, o, With(s, n, d', x', h, r.(phase := NewPhase(a))))
  {
    hide Reaches;
    var t, u := With(s, n, d, x, h, r), With(s, n, d', x', h, r.(phase := NewPhase(a)));
    assert t.disk[n := d'] == u.disk && t.table[0 := x'] == u.table && t.refs[h := u.refs[h]] == u.refs;
    Go(o, t, a, u);
  }

  /** The inode is locked, read and unlocked. */
  lemma ReadWith(o: State, s: State, n: Num, d: Dinode, ref: int, m: Dinode, h: nat)
    requires |s.table| > 0 && Reaches(Next, o, With(s, n, d, Entry(ref, n, false, m, Open), h, Ref(0, Idle, d.gen)))
    ensures Reaches(Next, o, With(s, n, d, Entry(ref, n, true, d, Open), h, Ref(0, Idle, d.gen)))
  {
    hide Reaches, Next, SlotFor;
    GoWith(o, s, n, d, Entry(ref, n, false, m, Open), h, Ref(0, Idle, d.gen), Acquire(h), d,
      Entry(ref, n, false, m, By(h)));
    GoWith(o, s, n, d, Entry(ref, n, false, m, By(h)), h, Ref(0, Loading, d.gen), Load(h), d,
      Entry(ref, n, true, d, By(h)));
    GoWith(o, s, n, d, Entry(ref, n, true, d, By(h)), h, Ref(0, Holding(false), d.gen), Unlock(h), d,
      Entry(ref, n, true, d, Open));
  }

  function Dead(d: Dinode): Dinode {
    Dinode(0, 0, 0, d.gen)
  }

  /** iput's freeing branch, up to the last decrement. */
  lemma FreeWith(o: State, s: State, n: Num, d: Dinode, h: nat)
    requires |s.table| > 0 && d.nlink == 0
    requires Reaches(Next, o, With(s, n, d, Entry(1, n, true, d, Open), h, Ref(0, Idle, d.gen)))
    ensures Reaches(Next, o, With(s, n, Dead(d), Entry(1, n, false, Dead(d), Open), h, Ref(0, Freeing(5), d.gen)))
  {
    hide Reaches, Next, SlotFor;
    var c := d.(data := 0);
    GoWith(o, s, n, d, Entry(1, n, true, d, Open), h, Ref(0, Idle, d.gen), Put(h), d, Entry(1, n, true, d, By(h)));
    GoWith(o, s, n, d, Entry(1, n, true, d, By(h)), h, Ref(0, Freeing(0), d.gen), Truncate(h), c,
      Entry(1, n, true, c, By(h)));
    GoWith(o, s, n, c, Entry(1, n, true, c, By(h)), h, Ref(0, Freeing(1), d.gen), Kill(h), c,
      Entry(1, n, true, Dead(d), By(h)));
    WriteWith(o, s, n, c, Dead(d), h);
  }

  lemma WriteWith(o: State, s: State, n: Num, c: Dinode, dead: Dinode, h: nat)
    requires |s.table| > 0
    requires Reaches(Next, o, With(s, n, c, Entry(1, n, true, dead, By(h)), h, Ref(0, Freeing(2), dead.gen)))
    ensures Reaches(Next, o, With(s, n, dead, Entry(1, n, false, dead, Open), h, Ref(0, Freeing(5), dead.gen)))
  {
    hide Reaches, Next, SlotFor;
    GoWith(o, s, n, c, Entry(1, n, true, dead, By(h)), h, Ref(0, Freeing(2), dead.gen), WriteFree(h), dead,
      Entry(1, n, true, dead, By(h)));
    GoWith(o, s, n, dead, Entry(1, n, true, dead, By(h)), h, Ref(0, Freeing(3), dead.gen), Invalidate(h), dead,
      Entry(1, n, false, dead, By(h)));
    GoWith(o, s, n, dead, Entry(1, n, false, dead, By(h)), h, Ref(0, Freeing(4), dead.gen), Release(h), dead,
      Entry(1, n, false, dead, Open));
  }

  // ---------------------------------------------------------------- a run that leaves an orphan

  /** One inode, one entry. */
  function Small(d: Dinode, x: Entry, refs: map<nat, Ref>, claims: map<nat, Num>): State {
    State(map[Num(0, 1) := d], [x], refs, claims)
  }

  lemma SmallWith(d: Dinode, x: Entry, rest: map<nat, Ref>, d': Dinode, x': Entry, h: nat, r: Ref)
    ensures With(Small(d, x, rest, map[]), Num(0, 1), d', x', h, r) == Small(d', x', rest[h := r], map[])
  {
    assert map[Num(0, 1) := d][Num(0, 1) := d'] == map[Num(0, 1) := d'];
    assert [x][0 := x'] == [x'];
  }

  /** The holder of reference 0 takes the last link away and puts the inode, up to the last decrement. */
  lemma UnlinkAndPut(s: State, linked: Dinode, x: Entry)
    requires s == Small(linked, x, map[], map[]) && linked == Dinode(1, 1, 0, 0)
    requires x == Entry(0, Num(0, 1), false, linked, Open)
    ensures var dead := Dinode(0, 0, 0, 0);
      Reaches(Next, s, Small(dead, Entry(1, Num(0, 1), false, dead, Open), map[0 := Ref(0, Freeing(5), 0)], map[]))
  {
    hide Reaches, Next;
    var n, bare, dead := Num(0, 1), Dinode(1, 0, 0, 0), Dinode(0, 0, 0, 0);
    Stays(Next, s);
    SmallWith(linked, x, map[], linked, Entry(1, n, false, linked, Open), 0, Ref(0, Idle, 0));
    Go(s, s, GetLinked(n, 0, 0), With(s, n, linked, Entry(1, n, false, linked, Open), 0, Ref(0, Idle, 0)));
    UnlinkWith(s, s, n, linked, bare, 0);
    FreeWith(s, s, n, bare, 0);
    SmallWith(linked, x, map[], dead, Entry(1, n, false, dead, Open), 0, Ref(0, Freeing(5), 0));
  }

  lemma UnlinkWith(o: State, s: State, n: Num, d: Dinode, b: Dinode, h: nat)
    requires |s.table| > 0 && b == d.(nlink := 0)
    requires Reaches(Next, o, With(s, n, d, Entry(1, n, false, d, Open), h, Ref(0, Idle, d.gen)))
    ensures Reaches(Next, o, With(s, n, b, Entry(1, n, true, b, Open), h, Ref(0, Idle, d.gen)))
  {
    hide Reaches, Next, SlotFor;
    GoWith(o, s, n, d, Entry(1, n, false, d, Open), h, Ref(0, Idle, d.gen), Acquire(h), d,
      Entry(1, n, false, d, By(h)));
    GoWith(o, s, n, d, Entry(1, n, false, d, By(h)), h, Ref(0, Loading, d.gen), Load(h), d,
      Entry(1, n, true, d, By(h)));
    ChangeWith(o, s, n, d, b, h);
  }

  /** Its holder changes the inode, writes it and unlocks it. */
  lemma ChangeWith(o: State, s: State, n: Num, d: Dinode, b: Dinode, h: nat)
    requires |s.table| > 0 && b == d.(nlink := 0)
    requires Reaches(Next, o, With(s, n, d, Entry(1, n, true, d, By(h)), h, Ref(0, Holding(false), d.gen)))
    ensures Reaches(Next, o, With(s, n, b, Entry(1, n, true, b, Open), h, Ref(0, Idle, d.gen)))
  {
    hide Reaches, Next, SlotFor;
    GoWith(o, s, n, d, Entry(1, n, true, d, By(h)), h, Ref(0, Holding(false), d.gen), Modify(h, b), d,
      Entry(1, n, true, b, By(h)));
    GoWith(o, s, n, d, Entry(1, n, true, b, By(h)), h, Ref(0, Holding(true), d.gen), Update(h), b,
      Entry(1, n, true, b, By(h)));
    GoWith(o, s, n, b, Entry(1, n, true, b, By(h)), h, Ref(0, Holding(false), d.gen), Unlock(h), b,
      Entry(1, n, true, b, Open));
  }

  /** Meanwhile reference 1 is taken for a new file of that number. */
  lemma Reuse(o: State, s: State, rest: map<nat, Ref>)
    requires rest == map[0 := Ref(0, Freeing(5), 0)] && Reaches(Next, o, s)
    requires s == Small(Dinode(0, 0, 0, 0), Entry(1, Num(0, 1), false, Dinode(0, 0, 0, 0), Open), rest, map[])
    ensures Reaches(Next, o, With(s, Num(0, 1), Dinode(1, 0, 0, 1),
      Entry(2, Num(0, 1), false, Dinode(0, 0, 0, 0), Open), 1, Ref(0, Idle, 1)))
  {
    hide Reaches, Next;
    var n, dead, young := Num(0, 1), Dinode(0, 0, 0, 0), Dinode(1, 0, 0, 1);
    var t := Small(young, Entry(1, n, false, dead, Open), rest, map[0 := n]);
    assert s.disk[n := young] == map[n := young];
    Go(o, s, Alloc(0, n, 1), t);
    assert t.claims - {0} == map[];
    SmallWith(dead, s.table[0], rest, young, Entry(2, n, false, dead, Open), 1, Ref(0, Idle, 1));
    Go(o, t, GetClaim(0, 1, 0), With(s, n, young, Entry(2, n, false, dead, Open), 1, Ref(0, Idle, 1)));
  }

  /** It is read and put, and then reference 0 goes. */
  lemma PutBoth(o: State, young: Dinode, rest: map<nat, Ref>)
    requires rest == map[0 := Ref(0, Freeing(5), 0)] && young == Dinode(1, 0, 0, 1)
    requires Reaches(Next, o, Small(young, Entry(2, Num(0, 1), true, young, Open), rest[1 := Ref(0, Idle, 1)], map[]))
    ensures Reaches(Next, o, Small(young, Entry(0, Num(0, 1), true, young, Open), map[], map[]))
  {
    hide Reaches, Next, SlotFor;
    var n := Num(0, 1);
    var t := Small(young, Entry(2, n, true, young, Open), rest[1 := Ref(0, Idle, 1)], map[]);
    var u := Small(young, Entry(1, n, true, young, Open), rest, map[]);
    assert t.refs - {1} == rest;
    Go(o, t, Put(1), u);
    assert u.refs - {0} == map[];
    Go(o, u, Drop(0), Small(young, Entry(0, n, true, young, Open), map[], map[]));
  }

  /** The last reference to an inode without links does not always free it: a run at whose end nobody is left to. */
  lemma OrphanRun()
    ensures exists ss: seq<State> :: Behavior(ss) && Orphan(ss[|ss| - 1], Num(0, 1)) && ss[|ss| - 1].refs == map[]
  {
    var n, linked, dead, young := Num(0, 1), Dinode(1, 1, 0, 0), Dinode(0, 0, 0, 0), Dinode(1, 0, 0, 1);
    var rest := map[0 := Ref(0, Freeing(5), 0)];
    var s := Small(linked, Entry(0, n, false, linked, Open), map[], map[]);
    var t := Small(dead, Entry(1, n, false, dead, Open), rest, map[]);
    var u := Small(young, Entry(0, n, true, young, Open), map[], map[]);
    assert Reaches(Next, s, u) by {
      hide *;
      UnlinkAndPut(s, linked, s.table[0]);
      Reuse(s, t, rest);
      ReadWith(s, t, n, young, 2, dead, 1);
      SmallWith(dead, t.table[0], rest, young, Entry(2, n, true, young, Open), 1, Ref(0, Idle, 1));
      PutBoth(s, young, rest);
    }
    var ss :| Run(Next, ss) && ss[0] == s && ss[|ss| - 1] == u;
    assert Behavior(ss) && Orphan(u, n);
  }

  // ---------------------------------------------------------------- ireclaim

  predicate Unlinked(d: Dinode) {
    d.kind != 0 && d.nlink == 0
  }

  /** The inodes lo..hi of a device that have no links are free, and the others as they were. */
  function Reclaimed(disk: map<Num, Dinode>, dev: nat, lo: nat, hi: nat): map<Num, Dinode> {
    map m | m in disk :: if m.dev == dev && lo <= m.inum < hi && Unlinked(disk[m]) then Dead(disk[m]) else disk[m]
  }

  /** One turn of ireclaim's loop on an orphan: it is taken, read and put, and that frees it. */
  lemma ReclaimOne(o: State, s: State, n: Num) returns (t: State)
    requires Reaches(Next, o, s) && Init(s) && |s.table| > 0 && n in s.disk && Unlinked(s.disk[n])
    ensures Reaches(Next, o, t) && Init(t) && |t.table| == |s.table| && t.disk == s.disk[n := Dead(s.disk[n])]
  {
    hide Reaches, Next;
    var d, m := s.disk[n], s.table[0].mem;
    assert s.disk[n := d] == s.disk;
    Go(o, s, Reclaim(n, 0, 0), With(s, n, d, Entry(1, n, false, m, Open), 0, Ref(0, Idle, d.gen)));
    ReadWith(o, s, n, d, 1, m, 0);
    FreeWith(o, s, n, d, 0);
    var u := With(s, n, Dead(d), Entry(1, n, false, Dead(d), Open), 0, Ref(0, Freeing(5), d.gen));
    t := Without(u, 0);
    assert t.refs == map[];
    Go(o, u, Drop(0), t);
  }

  /** ireclaim's loop, run at boot: afterwards no inode that it looks at is allocated without links. */
  lemma {:induction false} ReclaimAll(o: State, s: State, dev: nat, lo: nat, hi: nat)
    requires Reaches(Next, o, s) && Init(s) && |s.table| > 0 && lo <= hi
    ensures exists t :: Reaches(Next, o, t) && Init(t) && t.disk == Reclaimed(s.disk, dev, lo, hi)
    decreases hi - lo
  {
    hide Reaches, Next;
    if lo == hi {
      assert s.disk == Reclaimed(s.disk, dev, lo, hi);
    } else {
      var n := Num(dev, lo);
      var u := s;
      if n in s.disk && Unlinked(s.disk[n]) {
        u := ReclaimOne(o, s, n);
      }
      ReclaimAll(o, u, dev, lo + 1, hi);
      assert Reclaimed(u.disk, dev, lo + 1, hi) == Reclaimed(s.disk, dev, lo, hi);
    }
  }
}
