/**
 kernel/bio.c: the buffer cache over the disk, and log_write's pins (kernel/log.c).

 What runs under bcache.lock is one method, and so is each use of a buffer's sleep lock;
 a run is any sequence of calls, each in the name of the holder of one reference. Buffers are
 numbered, and HEAD is the list's head.
 */
module BufferCache {
  import opened Common

  const NBUF: nat := 30
  const HEAD: nat := NBUF

  type Block = seq<int>
  datatype Key = Key(dev: nat, blockno: nat)

  // ---------------------------------------------------------------- the list

  /** Position i of the circle that starts and ends at HEAD. */
  function At(order: seq<nat>, i: nat): nat
    requires i <= |order| + 1
  {
    if i == 0 || i == |order| + 1 then HEAD else order[i - 1]
  }

  predicate Links(next: seq<nat>, prev: seq<nat>, order: seq<nat>, i: nat)
    requires i <= |order|
  {
    && At(order, i) <= HEAD && At(order, i + 1) <= HEAD && |next| == |prev| == HEAD + 1
    && next[At(order, i)] == At(order, i + 1) && prev[At(order, i + 1)] == At(order, i)
  }

  /** next and prev go round HEAD and the buffers of order, each once. */
  ghost predicate Ring(next: seq<nat>, prev: seq<nat>, order: seq<nat>) {
    && |next| == |prev| == HEAD + 1
    && (forall i {:trigger order[i]} :: 0 <= i < |order| ==> order[i] < NBUF)
    && (forall i, j {:trigger order[i], order[j]} :: 0 <= i < j < |order| ==> order[i] != order[j])
    && (forall i: nat {:trigger Links(next, prev, order, i)} :: i <= |order| ==> Links(next, prev, order, i))
  }

  function Removed(order: seq<nat>, k: nat): seq<nat>
    requires k < |order|
  {
    order[..k] + order[k + 1..]
  }

  /** b->next->prev = b->prev; b->prev->next = b->next */
  lemma Unlink(next: seq<nat>, prev: seq<nat>, order: seq<nat>, k: nat)
    requires Ring(next, prev, order) && k < |order|
    ensures order[k] < NBUF && next[order[k]] <= HEAD && prev[order[k]] <= HEAD
    ensures Ring(next[prev[order[k]] := next[order[k]]], prev[next[order[k]] := prev[order[k]]], Removed(order, k))
  {
    var b := order[k];
    assert Links(next, prev, order, k) && Links(next, prev, order, k + 1);
    var next', prev' := next[prev[b] := next[b]], prev[next[b] := prev[b]];
    var r := Removed(order, k);
    forall i: nat | i <= |r| ensures Links(next', prev', r, i) {
      if i < k {
        assert Links(next, prev, order, i);
      } else if i > k {
        assert Links(next, prev, order, i + 1);
      }
    }
  }

  /** b->next = head.next; b->prev = &head; head.next->prev = b; head.next = b */
  lemma Insert(next: seq<nat>, prev: seq<nat>, order: seq<nat>, b: nat)
    requires Ring(next, prev, order) && b < NBUF && b !in order
    ensures next[HEAD] <= HEAD
    ensures Ring(next[b := next[HEAD]][HEAD := b], prev[b := HEAD][next[HEAD] := b], [b] + order)
  {
    assert Links(next, prev, order, 0);
    var next', prev' := next[b := next[HEAD]][HEAD := b], prev[b := HEAD][next[HEAD] := b];
    var r := [b] + order;
    forall i: nat | i <= |r| ensures Links(next', prev', r, i) {
      if i > 0 {
        assert Links(next, prev, order, i - 1);
        assert At(r, i + 1) == At(order, i);
        assert i > 1 ==> At(r, i) == At(order, i - 1);
      }
    }
  }

  /** The next link leads on along order, and prev back. */
  lemma Along(next: seq<nat>, prev: seq<nat>, order: seq<nat>, i: nat)
    requires Ring(next, prev, order) && i <= |order|
    ensures At(order, i) <= HEAD && At(order, i + 1) <= HEAD
    ensures next[At(order, i)] == At(order, i + 1) && prev[At(order, i + 1)] == At(order, i)
    ensures 1 <= i ==> At(order, i) == order[i - 1] < NBUF
  {
    assert Links(next, prev, order, i);
  }

  // ---------------------------------------------------------------- buffers and the store behind them

  /** A reference: the buffer it is to, and the block it was taken for. */
  datatype Ref = Ref(b: nat, key: Key)

  datatype Snap = Snap(key: seq<Key>, refcnt: seq<int>, valid: seq<bool>, data: seq<Block>, lock: seq<Option<nat>>,
                       disk: map<Key, Block>, logged: seq<Key>, done: nat, refs: map<nat, Ref>, pinned: set<nat>,
                       store: map<Key, Block>)

  ghost predicate Shape(s: Snap) {
    |s.key| == |s.refcnt| == |s.valid| == |s.data| == |s.lock| == NBUF && s.store.Keys == s.disk.Keys &&
      s.done <= |s.logged|
  }

  ghost function Users(refs: map<nat, Ref>, b: nat): set<nat> {
    set h | h in refs && refs[h].b == b
  }

  /** k is in the log header, and not installed yet. */
  ghost predicate InLog(s: Snap, k: Key) {
    exists i :: s.done <= i < |s.logged| && s.logged[i] == k
  }

  /** At most one buffer has a given block of a real device. */
  ghost predicate Unique(key: seq<Key>) {
    forall b, c :: 0 <= b < |key| && 0 <= c < |key| && key[b] == key[c] && key[b].dev != 0 ==> b == c
  }

  /**
   Buffer b counts its references and its pin, and holds the store's value; unlocked and
   unpinned, so does the disk.
   */
  ghost predicate BufOk(s: Snap, b: nat)
    requires Shape(s) && b < NBUF
  {
    && s.refcnt[b] == |Users(s.refs, b)| + (if b in s.pinned then 1 else 0)
    && (s.lock[b].Some? ==> s.lock[b].value in s.refs && s.refs[s.lock[b].value].b == b)
    && (s.valid[b] ==> s.key[b].dev != 0 && s.key[b] in s.store && s.data[b] == s.store[s.key[b]])
    && (s.valid[b] && b !in s.pinned && s.lock[b] == None ==> s.disk[s.key[b]] == s.data[b])
    && (b in s.pinned ==> s.valid[b] && InLog(s, s.key[b]))
  }

  /** A buffer keeps its block for as long as it is referenced. */
  ghost predicate RefOk(s: Snap, h: nat)
    requires Shape(s) && h in s.refs
  {
    var r := s.refs[h];
    r.b < NBUF && s.key[r.b] == r.key && r.key.dev != 0 && r.key in s.store
  }

  ghost predicate Cached(s: Snap, k: Key)
    requires Shape(s)
  {
    exists b :: 0 <= b < NBUF && s.valid[b] && s.key[b] == k
  }

  /** What is not cached is on the disk. */
  ghost predicate DiskOk(s: Snap, k: Key)
    requires Shape(s) && k in s.store
  {
    Cached(s, k) || s.disk[k] == s.store[k]
  }

  /** Each block of the log header is there once, and pinned until it is installed. */
  ghost predicate LogOk(s: Snap, i: nat)
    requires Shape(s) && i < |s.logged|
  {
    && (s.done <= i ==> exists b :: b in s.pinned && b < NBUF && s.key[b] == s.logged[i])
    && (forall j :: 0 <= j < |s.logged| && s.logged[j] == s.logged[i] ==> j == i)
  }

  ghost predicate Sound(s: Snap) {
    && Shape(s) && Unique(s.key) && (forall b :: b in s.pinned ==> b < NBUF)
    && (forall b: nat {:trigger BufOk(s, b)} :: b < NBUF ==> BufOk(s, b))
    && (forall h {:trigger RefOk(s, h)} :: h in s.refs ==> RefOk(s, h))
    && (forall k {:trigger DiskOk(s, k)} :: k in s.store ==> DiskOk(s, k))
    && (forall i: nat {:trigger LogOk(s, i)} :: i < |s.logged| ==> LogOk(s, i))
  }

  lemma Facts(s: Snap, b: nat)
    requires Sound(s) && b < NBUF
    ensures BufOk(s, b)
  {
  }

  lemma RefFacts(s: Snap, h: nat)
    requires Sound(s) && h in s.refs
    ensures RefOk(s, h)
  {
  }

  lemma UsersAdd(refs: map<nat, Ref>, h: nat, r: Ref, b: nat)
    requires h !in refs
    ensures Users(refs[h := r], b) == (if r.b == b then Users(refs, b) + {h} else Users(refs, b))
    ensures h !in Users(refs, b)
  {
  }

  lemma UsersDrop(refs: map<nat, Ref>, h: nat, b: nat)
    requires h in refs
    ensures Users(refs - {h}, b) == (if refs[h].b == b then Users(refs, b) - {h} else Users(refs, b))
    ensures h in Users(refs, b) <==> refs[h].b == b
  {
  }

  // ---------------------------------------------------------------- steps on values

  /** bget found the block in b. */
  function Hit(s: Snap, h: nat, b: nat): Snap
    requires Shape(s) && b < NBUF
  {
    s.(refcnt := s.refcnt[b := s.refcnt[b] + 1], refs := s.refs[h := Ref(b, s.key[b])])
  }

  lemma HitSound(s: Snap, h: nat, b: nat)
    requires Sound(s) && b < NBUF && h !in s.refs && s.key[b].dev != 0 && s.key[b] in s.store
    ensures Sound(Hit(s, h, b))
  {
    var t := Hit(s, h, b);
    forall c: nat | c < NBUF ensures BufOk(t, c) {
      Facts(s, c);
      UsersAdd(s.refs, h, Ref(b, s.key[b]), c);
    }
    forall g | g in t.refs ensures RefOk(t, g) {
      assert g != h ==> RefOk(s, g);
    }
    forall k | k in t.store ensures DiskOk(t, k) {
      assert DiskOk(s, k);
    }
    forall i: nat | i < |t.logged| ensures LogOk(t, i) {
      assert LogOk(s, i);
    }
  }

  /** bget gives the unused buffer b to block k. */
  function Recycle(s: Snap, h: nat, b: nat, k: Key): Snap
    requires Shape(s) && b < NBUF
  {
    s.(key := s.key[b := k], valid := s.valid[b := false], refcnt := s.refcnt[b := 1], refs := s.refs[h := Ref(b, k)])
  }

  /** An unused buffer has nothing that is not on the disk, and nobody relies on its block. */
  lemma Unused(s: Snap, b: nat)
    requires Sound(s) && b < NBUF && s.refcnt[b] == 0
    ensures b !in s.pinned && s.lock[b] == None && (forall h :: h in s.refs ==> s.refs[h].b != b)
    ensures s.valid[b] ==> s.key[b] in s.store && s.disk[s.key[b]] == s.store[s.key[b]]
  {
    Facts(s, b);
    assert |Users(s.refs, b)| == 0;
    forall h | h in s.refs ensures s.refs[h].b != b {
      assert h !in Users(s.refs, b);
    }
  }

  lemma RecycleBuf(s: Snap, h: nat, b: nat, k: Key, c: nat)
    requires Sound(s) && b < NBUF && s.refcnt[b] == 0 && h !in s.refs && c < NBUF
    ensures BufOk(Recycle(s, h, b, k), c)
  {
    hide Sound;
    SoundShape(s);
    Facts(s, c);
    Unused(s, b);
    UsersAdd(s.refs, h, Ref(b, k), c);
    if c == b {
      assert Users(s.refs, b) == {};
    }
  }

  lemma SoundShape(s: Snap)
    requires Sound(s)
    ensures Shape(s)
  {
  }

  lemma RecycleRest(s: Snap, h: nat, b: nat, k: Key)
    requires Sound(s) && b < NBUF && s.refcnt[b] == 0 && h !in s.refs && k in s.store && k.dev != 0
    requires forall c :: 0 <= c < NBUF ==> s.key[c] != k
    ensures var t := Recycle(s, h, b, k);
      Unique(t.key) && (forall g :: g in t.refs ==> RefOk(t, g)) && (forall i: nat :: i < |t.logged| ==> LogOk(t, i))
  {
    var t := Recycle(s, h, b, k);
    Unused(s, b);
    forall g | g in t.refs ensures RefOk(t, g) {
      assert g != h ==> RefOk(s, g);
    }
    forall i: nat | i < |t.logged| ensures LogOk(t, i) {
      assert LogOk(s, i);
      if s.done <= i {
        var c :| c in s.pinned && c < NBUF && s.key[c] == s.logged[i];
        assert c in t.pinned && t.key[c] == t.logged[i];
      }
    }
  }

  lemma RecycleDisk(s: Snap, h: nat, b: nat, k: Key, j: Key)
    requires Sound(s) && b < NBUF && s.refcnt[b] == 0 && h !in s.refs && j in s.store
    ensures DiskOk(Recycle(s, h, b, k), j)
  {
    Unused(s, b);
    assert DiskOk(s, j);
    var t := Recycle(s, h, b, k);
    if Cached(s, j) {
      var c :| 0 <= c < NBUF && s.valid[c] && s.key[c] == j;
      if c != b {
        assert t.valid[c] && t.key[c] == j;
      } else {
        assert BufOk(s, b);
      }
    }
  }

  lemma RecycleSound(s: Snap, h: nat, b: nat, k: Key)
    requires Sound(s) && b < NBUF && s.refcnt[b] == 0 && h !in s.refs && k in s.store && k.dev != 0
    requires forall c :: 0 <= c < NBUF ==> s.key[c] != k
    ensures Sound(Recycle(s, h, b, k))
  {
    var t := Recycle(s, h, b, k);
    RecycleRest(s, h, b, k);
    forall c: nat | c < NBUF ensures BufOk(t, c) {
      RecycleBuf(s, h, b, k, c);
    }
    forall j | j in t.store ensures DiskOk(t, j) {
      RecycleDisk(s, h, b, k, j);
    }
  }

  // ---------------------------------------------------------------- steps on one buffer

  /** t is s but for buffer b's contents, lock, count and pin, its block's values, and the log header. */
  ghost predicate Only(s: Snap, t: Snap, b: nat) {
    && Shape(s) && Shape(t) && b < NBUF && t.key == s.key && t.refs == s.refs && s.key[b].dev != 0
    && (forall c: nat {:trigger t.refcnt[c]} :: c < NBUF && c != b ==> t.refcnt[c] == s.refcnt[c])
    && (forall c: nat {:trigger t.valid[c]} :: c < NBUF && c != b ==> t.valid[c] == s.valid[c])
    && (forall c: nat {:trigger t.data[c]} :: c < NBUF && c != b ==> t.data[c] == s.data[c])
    && (forall c: nat {:trigger t.lock[c]} :: c < NBUF && c != b ==> t.lock[c] == s.lock[c])
    && (forall c {:trigger c in t.pinned} :: c in t.pinned <==> if c == b then c in t.pinned else c in s.pinned)
    && t.store.Keys == s.store.Keys
    && (forall k :: k in s.store && k != s.key[b] ==> t.store[k] == s.store[k] && t.disk[k] == s.disk[k])
  }

  lemma OnlyBuf(s: Snap, t: Snap, b: nat, c: nat)
    requires Sound(s) && Only(s, t, b) && c < NBUF && c != b
    requires c in s.pinned ==> InLog(t, s.key[c])
    ensures BufOk(t, c)
  {
    Facts(s, c);
    assert s.key[c] != s.key[b];
    assert t.valid[c] == s.valid[c] && t.data[c] == s.data[c] && t.lock[c] == s.lock[c] && t.refcnt[c] == s.refcnt[c];
  }

  lemma OnlyDisk(s: Snap, t: Snap, b: nat, k: Key)
    requires Sound(s) && Only(s, t, b) && k in s.store && k != s.key[b]
    ensures DiskOk(t, k)
  {
    assert DiskOk(s, k);
    if Cached(s, k) {
      var c :| 0 <= c < NBUF && s.valid[c] && s.key[c] == k;
      assert t.valid[c] && t.key[c] == k;
    }
  }

  lemma OnlySound(s: Snap, t: Snap, b: nat)
    requires Sound(s) && Only(s, t, b) && BufOk(t, b) && (s.key[b] in s.store ==> DiskOk(t, s.key[b]))
    requires forall c :: c in t.pinned ==> c < NBUF && InLog(t, t.key[c])
    requires forall i: nat :: i < |t.logged| ==> LogOk(t, i)
    ensures Sound(t)
  {
    forall c: nat | c < NBUF ensures BufOk(t, c) {
      if c != b {
        OnlyBuf(s, t, b, c);
      }
    }
    forall h | h in t.refs ensures RefOk(t, h) {
      assert RefOk(s, h);
    }
    forall k | k in t.store ensures DiskOk(t, k) {
      if k != s.key[b] {
        OnlyDisk(s, t, b, k);
      }
    }
  }

  /** Without a change to pins or header. */
  lemma OnlyQuiet(s: Snap, t: Snap, b: nat)
    requires Sound(s) && Only(s, t, b) && BufOk(t, b) && (s.key[b] in s.store ==> DiskOk(t, s.key[b]))
    requires t.pinned == s.pinned && t.logged == s.logged && t.done == s.done
    ensures Sound(t)
  {
    forall c | c in t.pinned ensures c < NBUF && InLog(t, t.key[c]) {
      assert BufOk(s, c);
    }
    forall i: nat | i < |t.logged| ensures LogOk(t, i) {
      assert LogOk(s, i);
    }
    OnlySound(s, t, b);
  }

  /** h has buffer b locked. */
  ghost predicate Holding(s: Snap, h: nat, b: nat) {
    Shape(s) && h in s.refs && s.refs[h].b == b < NBUF && s.lock[b] == Some(h)
  }

  ghost predicate Ready(s: Snap, h: nat, b: nat) {
    Holding(s, h, b) && s.valid[b]
  }

  lemma HeldFacts(s: Snap, h: nat)
    requires Sound(s) && h in s.refs
    ensures var b := s.refs[h].b;
      b < NBUF && BufOk(s, b) && s.key[b] == s.refs[h].key && s.key[b].dev != 0 && s.key[b] in s.store &&
      DiskOk(s, s.key[b])
  {
    RefFacts(s, h);
    Facts(s, s.refs[h].b);
  }

  function Locked(s: Snap, b: nat, lock: Option<nat>): Snap
    requires Shape(s) && b < NBUF
  {
    s.(lock := s.lock[b := lock])
  }

  lemma LockSound(s: Snap, h: nat, b: nat)
    requires Sound(s) && h in s.refs && s.refs[h].b == b < NBUF && s.lock[b] == None
    ensures Sound(Locked(s, b, Some(h)))
  {
    HeldFacts(s, h);
    OnlyQuiet(s, Locked(s, b, Some(h)), b);
  }

  /** A buffer may be unlocked when its contents are on the disk or pinned for the log. */
  lemma UnlockSound(s: Snap, h: nat, b: nat)
    requires Sound(s) && Holding(s, h, b)
    requires (s.valid[b] ==> b in s.pinned || (s.key[b] in s.disk && s.disk[s.key[b]] == s.data[b]))
    ensures Sound(Locked(s, b, None))
  {
    HeldFacts(s, h);
    OnlyQuiet(s, Locked(s, b, None), b);
  }

  /** virtio_disk_rw(b, 0); b->valid = 1 */
  function Filled(s: Snap, b: nat): Snap
    requires Shape(s) && b < NBUF && s.key[b] in s.disk
  {
    s.(data := s.data[b := s.disk[s.key[b]]], valid := s.valid[b := true])
  }

  lemma FillSound(s: Snap, h: nat, b: nat)
    requires Sound(s) && Holding(s, h, b) && !s.valid[b] && s.key[b] in s.disk
    ensures Sound(Filled(s, b)) && Filled(s, b).data[b] == s.store[s.key[b]]
  {
    HeldFacts(s, h);
    var t := Filled(s, b);
    assert t.valid[b] && t.key[b] == s.key[b];
    OnlyQuiet(s, t, b);
  }

  /** The holder changes the block. */
  function Modified(s: Snap, b: nat, d: Block): Snap
    requires Shape(s) && b < NBUF
  {
    s.(data := s.data[b := d], store := s.store[s.key[b] := d])
  }

  lemma ModifySound(s: Snap, h: nat, b: nat, d: Block)
    requires Sound(s) && Ready(s, h, b)
    ensures Sound(Modified(s, b, d))
  {
    HeldFacts(s, h);
    var t := Modified(s, b, d);
    assert t.valid[b] && t.key[b] == s.key[b];
    assert t.store.Keys == s.store.Keys;
    OnlyQuiet(s, t, b);
  }

  /** bwrite */
  function Written(s: Snap, b: nat): Snap
    requires Shape(s) && b < NBUF
  {
    s.(disk := s.disk[s.key[b] := s.data[b]])
  }

  lemma WriteSound(s: Snap, h: nat, b: nat)
    requires Sound(s) && Ready(s, h, b)
    ensures Sound(Written(s, b))
  {
    HeldFacts(s, h);
    var t := Written(s, b);
    assert t.disk.Keys == s.disk.Keys;
    assert t.valid[b] && t.key[b] == s.key[b];
    OnlyQuiet(s, t, b);
  }

  /** log_write of a block that is not in the header yet: bpin, and a new entry. */
  function Pinned(s: Snap, b: nat): Snap
    requires Shape(s) && b < NBUF
  {
    s.(refcnt := s.refcnt[b := s.refcnt[b] + 1], pinned := s.pinned + {b}, logged := s.logged + [s.key[b]])
  }

  lemma PinSound(s: Snap, h: nat, b: nat)
    requires Sound(s) && Ready(s, h, b) && s.done == 0 && s.key[b] !in s.logged
    ensures b !in s.pinned && Sound(Pinned(s, b))
  {
    HeldFacts(s, h);
    var t := Pinned(s, b);
    forall c | c in t.pinned ensures c < NBUF && InLog(t, t.key[c]) {
      if c != b {
        assert BufOk(s, c);
        var i :| s.done <= i < |s.logged| && s.logged[i] == s.key[c];
        assert t.logged[i] == t.key[c];
      } else {
        assert t.logged[|s.logged|] == t.key[b];
      }
    }
    forall i: nat | i < |t.logged| ensures LogOk(t, i) {
      if i < |s.logged| {
        assert LogOk(s, i);
        var c :| c in s.pinned && c < NBUF && s.key[c] == s.logged[i];
        assert c in t.pinned && t.key[c] == t.logged[i];
      } else {
        assert b in t.pinned && t.key[b] == t.logged[i];
      }
    }
    OnlySound(s, t, b);
  }

  /** bunpin of the next block of the header, once it is on the disk. */
  function Unpinned(s: Snap, b: nat): Snap
    requires Shape(s) && b < NBUF && s.done < |s.logged|
  {
    s.(refcnt := s.refcnt[b := s.refcnt[b] - 1], pinned := s.pinned - {b}, done := s.done + 1)
  }

  lemma UnpinSound(s: Snap, h: nat, b: nat)
    requires Sound(s) && Ready(s, h, b) && s.done < |s.logged| && s.logged[s.done] == s.key[b]
    requires s.key[b] in s.disk && s.disk[s.key[b]] == s.data[b]
    ensures b in s.pinned && Sound(Unpinned(s, b))
  {
    HeldFacts(s, h);
    assert LogOk(s, s.done);
    var t := Unpinned(s, b);
    forall c | c in t.pinned ensures c < NBUF && InLog(t, t.key[c]) {
      assert BufOk(s, c);
      var i :| s.done <= i < |s.logged| && s.logged[i] == s.key[c];
      assert i != s.done;
      assert t.logged[i] == t.key[c];
    }
    forall i: nat | i < |t.logged| ensures LogOk(t, i) {
      assert LogOk(s, i);
      if t.done <= i {
        var c :| c in s.pinned && c < NBUF && s.key[c] == s.logged[i];
        assert c != b;
        assert c in t.pinned && t.key[c] == t.logged[i];
      }
    }
    OnlySound(s, t, b);
  }

  /** The header is cleared once everything in it is installed; then nothing is pinned. */
  lemma ClearSound(s: Snap)
    requires Sound(s) && s.done == |s.logged|
    ensures s.pinned == {} && Sound(s.(logged := [], done := 0))
  {
    var t := s.(logged := [], done := 0);
    if s.pinned != {} {
      var b :| b in s.pinned;
      Facts(s, b);
      assert false;
    }
    forall b: nat | b < NBUF ensures BufOk(t, b) {
      assert BufOk(s, b);
    }
    forall h | h in t.refs ensures RefOk(t, h) {
      assert RefOk(s, h);
    }
    forall k | k in t.store ensures DiskOk(t, k) {
      assert DiskOk(s, k);
    }
  }

  /** The end of brelse: one reference less. */
  function Dropped(s: Snap, h: nat): Snap
    requires Shape(s) && h in s.refs && s.refs[h].b < NBUF
  {
    s.(refcnt := s.refcnt[s.refs[h].b := s.refcnt[s.refs[h].b] - 1], refs := s.refs - {h})
  }

  lemma DropBuf(s: Snap, h: nat, c: nat)
    requires Sound(s) && h in s.refs && s.refs[h].b < NBUF && s.lock[s.refs[h].b] != Some(h) && c < NBUF
    ensures BufOk(Dropped(s, h), c) && s.refcnt[s.refs[h].b] >= 1
  {
    hide Sound;
    SoundShape(s);
    Facts(s, c);
    UsersDrop(s.refs, h, c);
    Referenced(s, h);
  }

  lemma DropSound(s: Snap, h: nat)
    requires Sound(s) && h in s.refs && s.refs[h].b < NBUF && s.lock[s.refs[h].b] != Some(h)
    ensures Sound(Dropped(s, h)) && s.refcnt[s.refs[h].b] >= 1
  {
    hide BufOk;
    var t := Dropped(s, h);
    DropBuf(s, h, s.refs[h].b);
    forall c: nat | c < NBUF ensures BufOk(t, c) {
      DropBuf(s, h, c);
    }
    forall g | g in t.refs ensures RefOk(t, g) {
      assert RefOk(s, g);
    }
    forall k | k in t.store ensures DiskOk(t, k) {
      assert DiskOk(s, k);
    }
    forall i: nat | i < |t.logged| ensures LogOk(t, i) {
      assert LogOk(s, i);
    }
  }

  // ---------------------------------------------------------------- reading and releasing

  datatype Outcome = Got | Asleep | Full

  /** Nobody has block k locked. */
  ghost predicate Unlocked(s: Snap, k: Key) {
    forall c :: 0 <= c < |s.key| && c < |s.lock| && s.key[c] == k ==> s.lock[c] == None
  }

  /** h has read block k into buffer b. */
  function Fetched(s: Snap, h: nat, b: nat, k: Key): Snap
    requires Shape(s) && b < NBUF && k in s.store
  {
    s.(key := s.key[b := k], refcnt := s.refcnt[b := if s.key[b] == k then s.refcnt[b] + 1 else 1],
      valid := s.valid[b := true],
       data := s.data[b := s.store[k]], lock := s.lock[b := Some(h)], refs := s.refs[h := Ref(b, k)])
  }

  /** brelse */
  function Released(s: Snap, h: nat, b: nat): Snap
    requires Shape(s) && b < NBUF && h in s.refs && s.refs[h].b == b
  {
    Dropped(Locked(s, b, None), h)
  }

  /** A block is in one buffer at most. */
  lemma OneBuffer(s: Snap, k: Key)
    requires Sound(s) && k.dev != 0
    ensures forall b, c :: 0 <= b < NBUF && 0 <= c < NBUF && s.key[b] == k && s.key[c] == k ==> b == c
  {
  }

  lemma Referenced(s: Snap, h: nat)
    requires Sound(s) && h in s.refs
    ensures s.refs[h].b < NBUF && s.refcnt[s.refs[h].b] > 0
  {
    HeldFacts(s, h);
    assert h in Users(s.refs, s.refs[h].b);
  }

  lemma StillUnlocked(s: Snap, h: nat, b: nat, j: Key, k: Key)
    requires Shape(s) && b < NBUF && j in s.store && Unlocked(s, k) && k != j
    ensures Unlocked(Fetched(s, h, b, j), k)
  {
  }

  /** Buffers b and c can take blocks j and k: each has it or is unused. */
  ghost predicate Both(s: Snap, b: nat, j: Key, c: nat, k: Key) {
    && Shape(s) && b < NBUF && c < NBUF && b != c && s.lock[b] == None && s.lock[c] == None && j in s.store &&
      k in s.store
    && (s.key[b] == j || s.refcnt[b] == 0) && (s.key[c] == k || s.refcnt[c] == 0)
  }

  /** After a turn of write_log, buffer b has the log block to, and c the listed block from. */
  function CopiedOver(s: Snap, b: nat, to: Key, c: nat, from: Key): Snap
    requires Shape(s) && b < NBUF && c < NBUF && from in s.store
  {
    var v := s.store[from];
    s.(key := s.key[b := to][c := from], valid := s.valid[b := true][c := true], data := s.data[b := v][c := v],
       disk := s.disk[to := v], store := s.store[to := v])
  }

  lemma ListedPinned(s: Snap, b: nat, k: Key)
    requires Sound(s) && b < NBUF && s.key[b] == k && k in s.logged && s.done == 0 && k.dev != 0
    ensures b in s.pinned
  {
    var i :| 0 <= i < |s.logged| && s.logged[i] == k;
    LoggedPinned(s, b, i);
  }

  lemma Restored<T>(a: seq<T>, b: nat, c: nat, x: T, y: T)
    requires b < |a| && c < |a| && b != c
    ensures a[b := x][c := y][c := a[c]][b := a[b]] == a && a[b := x][c := y][b := a[b]][c := a[c]] == a
  {
  }

  lemma Overwritten<T>(a: seq<T>, b: nat, c: nat, x: T, y: T, z: T)
    requires b < |a| && c < |a| && b != c
    ensures a[b := x][c := y][b := z] == a[b := z][c := y] && a[b := x][c := y][c := z] == a[b := x][c := z]
  {
  }

  lemma Forgotten(refs: map<nat, Ref>, h: nat, x: Ref, g: nat, y: Ref)
    requires h != g && h !in refs && g !in refs
    ensures refs[h := x][g := y] - {g} - {h} == refs && refs[h := x][g := y] - {h} - {g} == refs
  {
  }

  lemma CopyResult(s: Snap, h: nat, b: nat, to: Key, g: nat, c: nat, from: Key)
    requires Both(s, b, to, c, from) && h != g && h !in s.refs && g !in s.refs
    ensures var t := Written(Modified(Fetched(Fetched(s, h, b, to), g, c, from), b, s.store[from]), b);
      Released(Released(t, g, c), h, b) == CopiedOver(s, b, to, c, from)
  {
    var t := Fetched(Fetched(s, h, b, to), g, c, from);
    Forgotten(s.refs, h, Ref(b, to), g, Ref(c, from));
    Restored(s.lock, b, c, Some(h), Some(g));
    Restored(s.refcnt, b, c, t.refcnt[b], t.refcnt[c]);
    Overwritten(s.data, b, c, s.store[to], s.store[from], s.store[from]);
  }

  /**
   After a turn of install_trans, buffer b has the log block from, and c, which is no longer
   pinned, the block installed.
   */
  function InstalledOver(s: Snap, b: nat, from: Key, c: nat): Snap
    requires Shape(s) && b < NBUF && c < NBUF && from in s.store && s.done < |s.logged|
  {
    var to, v := s.logged[s.done], s.store[from];
    s.(key := s.key[b := from][c := to], valid := s.valid[b := true][c := true], data := s.data[b := v][c := v],
       refcnt := s.refcnt[c := s.refcnt[c] - 1], pinned := s.pinned - {c}, disk := s.disk[to := v], done := s.done + 1)
  }

  lemma InstallResult(s: Snap, h: nat, b: nat, from: Key, g: nat, c: nat)
    requires s.done < |s.logged| && Both(s, b, from, c, s.logged[s.done]) && h != g && h !in s.refs && g !in s.refs
    requires s.store[s.logged[s.done]] == s.store[from] && s.key[c] == s.logged[s.done]
    ensures var t := Modified(Fetched(Fetched(s, h, b, from), g, c, s.logged[s.done]), c, s.store[from]);
      Released(Released(Unpinned(Written(t, c), c), h, b), g, c) == InstalledOver(s, b, from, c)
  {
    var to := s.logged[s.done];
    var t := Fetched(Fetched(s, h, b, from), g, c, to);
    assert s.store[to := s.store[from]] == s.store;
    Forgotten(s.refs, h, Ref(b, from), g, Ref(c, to));
    Restored(s.lock, b, c, Some(h), Some(g));
    Overwritten(s.data, b, c, s.store[from], s.store[to], s.store[from]);
    Counted(s.refcnt, b, c, t.refcnt[b]);
  }

  /** A pinned buffer is not recycled. */
  lemma StillThere(s: Snap, p: nat, b: nat, from: Key)
    requires Sound(s) && p in s.pinned && p < NBUF && b < NBUF
    requires (s.key[b] == from || s.refcnt[b] == 0) && s.key[p] != from
    ensures b != p && s.key[p] in s.key[b := from]
  {
    Facts(s, p);
    assert s.key[b := from][p] == s.key[p];
  }

  lemma Counted(a: seq<int>, b: nat, c: nat, x: int)
    requires b < |a| && c < |a| && b != c
    ensures a[b := x][c := a[c] + 1][c := a[c]][b := a[b]][c := a[c] - 1] == a[c := a[c] - 1]
  {
  }

  // ---------------------------------------------------------------- commit's copies

  function LogKey(dev: nat, start: nat, i: nat): Key {
    Key(dev, start + 1 + i)
  }

  predicate InRegion(k: Key, dev: nat, start: nat) {
    k.dev == dev && start < k.blockno <= start + NBUF
  }

  /** The header's blocks are home blocks, the log has a block for each, and nobody has any of them locked. */
  ghost predicate LogReady(s: Snap, dev: nat, start: nat) {
    |s.logged| <= NBUF && dev != 0 && forall i: nat :: i < |s.logged| ==> SlotReady(s, dev, start, i)
  }

  ghost predicate SlotReady(s: Snap, dev: nat, start: nat, i: nat)
    requires i < |s.logged|
  {
    var k, j := s.logged[i], LogKey(dev, start, i);
    k in s.store && j in s.store && k.dev != 0 && !InRegion(k, dev, start) && Unlocked(s, k) && Unlocked(s, j)
  }

  /** The first n log blocks hold the latest values of the blocks they are for. */
  ghost predicate Staged(s: Snap, dev: nat, start: nat, n: nat) {
    n <= |s.logged| && forall i: nat :: i < n ==> StagedSlot(s, LogKey(dev, start, i), s.logged[i])
  }

  predicate StagedSlot(s: Snap, j: Key, k: Key) {
    j in s.disk && j in s.store && k in s.store && s.disk[j] == s.store[j] == s.store[k]
  }

  predicate Quiet(s: Snap, t: Snap) {
    t.logged == s.logged && t.done == s.done && t.pinned == s.pinned && t.refs == s.refs
  }

  ghost predicate OnlyLogChanged(s: Snap, t: Snap, dev: nat, start: nat) {
    && t.store.Keys == s.store.Keys
    && (forall k :: k in s.store && !InRegion(k, dev, start) ==> t.store[k] == s.store[k])
    && (forall k :: k in t.disk && !InRegion(k, dev, start) ==> k in s.disk && t.disk[k] == s.disk[k])
  }

  lemma QuietStart(s: Snap, dev: nat, start: nat)
    ensures OnlyLogChanged(s, s, dev, start) && Staged(s, dev, start, 0)
  {
  }

  lemma ReadyAt(s: Snap, dev: nat, start: nat, i: nat)
    requires LogReady(s, dev, start) && i < |s.logged|
    ensures SlotReady(s, dev, start, i) && InRegion(LogKey(dev, start, i), dev, start) && dev != 0
  {
  }

  lemma StagedAt(s: Snap, dev: nat, start: nat, n: nat, i: nat)
    requires Staged(s, dev, start, n) && i < n
    ensures i < |s.logged| && StagedSlot(s, LogKey(dev, start, i), s.logged[i])
  {
  }

  /** Two buffers with open locks taking over blocks locks nothing. */
  lemma LocksSame(s: Snap, t: Snap, b: nat, j: Key, c: nat, k: Key, dev: nat, start: nat)
    requires Both(s, b, j, c, k) && LogReady(s, dev, start)
    requires t.key == s.key[b := j][c := k] && t.lock == s.lock && t.logged == s.logged && t.store.Keys == s.store.Keys
    ensures LogReady(t, dev, start)
  {
    forall i: nat | i < |t.logged| ensures SlotReady(t, dev, start, i) {
      assert SlotReady(s, dev, start, i);
    }
  }

  lemma CopyStaged(o: Snap, s: Snap, t: Snap, dev: nat, start: nat, tail: nat, b: nat, c: nat)
    requires Quiet(o, s) && LogReady(s, dev, start) && OnlyLogChanged(o, s, dev, start)
    requires Staged(s, dev, start, tail) && tail < |s.logged|
    requires Both(s, b, LogKey(dev, start, tail), c, s.logged[tail])
    requires t == CopiedOver(s, b, LogKey(dev, start, tail), c, s.logged[tail])
    ensures Quiet(o, t) && LogReady(t, dev, start)
    ensures OnlyLogChanged(o, t, dev, start) && Staged(t, dev, start, tail + 1)
  {
    hide LogReady, Both;
    ReadyAt(s, dev, start, tail);
    assert t.store.Keys == s.store.Keys;
    LocksSame(s, t, b, LogKey(dev, start, tail), c, s.logged[tail], dev, start);
    forall i: nat | i < tail + 1 ensures StagedSlot(t, LogKey(dev, start, i), t.logged[i]) {
      ReadyAt(s, dev, start, i);
      if i < tail {
        StagedAt(s, dev, start, tail, i);
      }
    }
  }

  /** The installed blocks are on the disk, and the others there as they were in d. */
  ghost predicate HomeFrom(d: map<Key, Block>, s: Snap) {
    && s.done <= |s.logged|
    && (forall i :: 0 <= i < s.done ==>
      s.logged[i] in s.disk && s.logged[i] in s.store && s.disk[s.logged[i]] == s.store[s.logged[i]])
    && (forall k :: k in s.disk && k !in s.logged ==> k in d && s.disk[k] == d[k])
  }

  lemma HomeStart(s: Snap)
    requires s.done == 0
    ensures HomeFrom(s.disk, s)
  {
  }

  lemma HomeEnd(d: map<Key, Block>, s: Snap)
    requires HomeFrom(d, s) && s.done == |s.logged|
    ensures forall k :: k in s.logged ==> k in s.disk && k in s.store && s.disk[k] == s.store[k]
    ensures forall k :: k in s.disk && k !in s.logged ==> k in d && s.disk[k] == d[k]
  {
    forall k | k in s.logged ensures k in s.disk && k in s.store && s.disk[k] == s.store[k] {
      var i :| 0 <= i < |s.logged| && s.logged[i] == k;
    }
  }

  lemma InstallHome(d: map<Key, Block>, s: Snap, t: Snap, b: nat, from: Key, c: nat)
    requires Shape(s) && b < NBUF && c < NBUF && s.done < |s.logged| && StagedSlot(s, from, s.logged[s.done])
    requires HomeFrom(d, s) && t == InstalledOver(s, b, from, c)
    ensures HomeFrom(d, t)
  {
  }

  lemma StillStaged(s: Snap, t: Snap, dev: nat, start: nat, k: Key, v: Block)
    requires LogReady(s, dev, start) && Staged(s, dev, start, |s.logged|) && !InRegion(k, dev, start)
    requires t.store == s.store && t.logged == s.logged && t.disk == s.disk[k := v]
    ensures Staged(t, dev, start, |t.logged|)
  {
    hide LogReady;
    forall i: nat | i < |t.logged| ensures StagedSlot(t, LogKey(dev, start, i), t.logged[i]) {
      ReadyAt(s, dev, start, i);
      StagedAt(s, dev, start, |s.logged|, i);
    }
  }

  lemma InstallStaged(d: map<Key, Block>, s: Snap, t: Snap, dev: nat, start: nat, b: nat, c: nat)
    requires s.done < |s.logged| && LogReady(s, dev, start) && Staged(s, dev, start, |s.logged|) && HomeFrom(d, s)
    requires Both(s, b, LogKey(dev, start, s.done), c, s.logged[s.done])
    requires t == InstalledOver(s, b, LogKey(dev, start, s.done), c)
    ensures LogReady(t, dev, start) && Staged(t, dev, start, |t.logged|) && HomeFrom(d, t)
    ensures t.store == s.store && t.logged == s.logged && t.refs == s.refs && t.done == s.done + 1
  {
    hide LogReady, HomeFrom, Staged;
    var from, to := LogKey(dev, start, s.done), s.logged[s.done];
    ReadyAt(s, dev, start, s.done);
    StagedAt(s, dev, start, |s.logged|, s.done);
    LocksSame(s, t, b, from, c, to, dev, start);
    InstallHome(d, s, t, b, from, c);
    StillStaged(s, t, dev, start, to, s.store[from]);
  }

  // ---------------------------------------------------------------- the code

  ghost predicate Everyone(order: seq<nat>) {
    |order| == NBUF && forall b: nat :: b < NBUF ==> b in order
  }

  class Cache {
    var key: seq<Key>
    var refcnt: seq<int>
    var valid: seq<bool>
    var data: seq<Block>
    var lock: seq<Option<nat>>
    var next: seq<nat>
    var prev: seq<nat>
    var disk: map<Key, Block>
    var logged: seq<Key>               // log.lh
    var done: nat                      // tail, in install_trans

    ghost var order: seq<nat>          // most recently used first
    ghost var refs: map<nat, Ref>
    ghost var pinned: set<nat>
    ghost var store: map<Key, Block>   // the latest value of each block

    ghost function Now(): Snap
      reads this
    {
      Snap(key, refcnt, valid, data, lock, disk, logged, done, refs, pinned, store)
    }

    ghost predicate Valid()
      reads this
    {
      Sound(Now()) && Ring(next, prev, order) && Everyone(order)
    }

    /** binit */
    constructor (disk: map<Key, Block>)
      ensures Valid() && refs == map[] && pinned == {} && logged == [] && store == disk == this.disk
    {
      key := seq(NBUF, i => Key(0, 0));
      refcnt := seq(NBUF, i => 0);
      valid := seq(NBUF, i => false);
      data := seq(NBUF, i => []);
      lock := seq(NBUF, i => None);
      next := seq(NBUF + 1, i => HEAD);
      prev := seq(NBUF + 1, i => HEAD);
      this.disk, logged, done := disk, [], 0;
      order, refs, pinned, store := [], map[], {}, disk;
      new;
      LinkAll();
    }

    /** binit's loop. */
    method LinkAll()
      requires |next| == |prev| == HEAD + 1 && next[HEAD] == prev[HEAD] == HEAD && order == []
      modifies this`next, this`prev, this`order
      ensures Ring(next, prev, order) && Everyone(order)
    {
      hide Ring;
      EmptyRing(next, prev);
      for b := 0 to NBUF
        invariant Ring(next, prev, order) && |next| == |prev| == HEAD + 1
        invariant |order| == b && (forall c: nat :: c in order <==> c < b)
      {
        PushFront(b);
      }
    }

    /** b->next = head.next; b->prev = &head; head.next->prev = b; head.next = b */
    method PushFront(b: nat)
      requires Ring(next, prev, order) && b < NBUF && b !in order
      modifies this`next, this`prev, this`order
      ensures Ring(next, prev, order) && |next| == |prev| == HEAD + 1 && order == [b] + old(order)
    {
      Insert(next, prev, order, b);
      next, prev := next[b := next[HEAD]], prev[b := HEAD];
      prev := prev[next[b] := b];
      next := next[HEAD := b];
      order := [b] + order;
    }

    /**
     bget, up to its acquiresleep: another reference to the buffer that has k, or the least
     recently used unused buffer. It fails only when the block is not cached and every buffer is in use.
     */
    method BGet(ghost h: nat, k: Key) returns (b: nat, ok: bool)
      requires Valid() && h !in refs && k.dev != 0 && k in store
      modifies this`key, this`refcnt, this`valid, this`refs
      ensures Valid()
      ensures ok ==> b < NBUF && refs == old(refs)[h := Ref(b, k)]
      ensures ok && old(key)[b] == k ==> Now() == Hit(old(Now()), h, b)
      ensures ok && old(key)[b] != k ==> Now() == Recycle(old(Now()), h, b, k) && forall c :: 0 <= c < NBUF ==>
        old(key)[c] != k
      ensures ok && old(key)[b] != k ==> old(refcnt)[b] == 0 && Coldest(order, old(refcnt), b)
      ensures !ok ==> Now() == old(Now()) && forall c :: 0 <= c < NBUF ==> key[c] != k && refcnt[c] != 0
    {
      hide Sound, Ring;
      RingShape(next, prev, order);
      SoundShape(Now());
      Along(next, prev, order, 0);
      b := next[HEAD];
      ghost var i := 1;
      while b != HEAD
        invariant Valid() && Now() == old(Now()) && Shape(Now()) && 1 <= i <= NBUF + 1 && b == At(order, i)
        invariant forall j :: 0 <= j < i - 1 ==> key[order[j]] != k
        decreases NBUF + 1 - i
      {
        Along(next, prev, order, i);
        if key[b] == k {
          HitSound(Now(), h, b);
          refcnt := refcnt[b := refcnt[b] + 1];
          refs := refs[h := Ref(b, k)];
          return b, true;
        }
        b := next[b];
        i := i + 1;
      }
      NowhereElse(order, key, k);
      b, ok := Evict(h, k);
    }

    /** bget's second loop. */
    method Evict(ghost h: nat, k: Key) returns (b: nat, ok: bool)
      requires Valid() && h !in refs && k.dev != 0 && k in store && forall c :: 0 <= c < NBUF ==> key[c] != k
      modifies this`key, this`refcnt, this`valid, this`refs
      ensures Valid()
      ensures ok ==>
        b < NBUF && old(refcnt)[b] == 0 && Now() == Recycle(old(Now()), h, b, k) && Coldest(order, old(refcnt), b)
      ensures !ok ==> Now() == old(Now()) && forall c :: 0 <= c < NBUF ==> refcnt[c] != 0
    {
      hide Sound, Ring, Coldest, Everyone;
      RingShape(next, prev, order);
      EveryoneLength(order);
      SoundShape(Now());
      Along(next, prev, order, NBUF);
      b := prev[HEAD];
      ghost var i := NBUF;
      while b != HEAD
        invariant Valid() && Now() == old(Now()) && Shape(Now()) && 0 <= i <= NBUF && b == At(order, i)
        invariant forall j :: i <= j < NBUF ==> refcnt[order[j]] != 0
        decreases i
      {
        Along(next, prev, order, i);
        Along(next, prev, order, i - 1);
        if refcnt[b] == 0 {
          IsColdest(order, refcnt, i - 1);
          Reuse(h, b, k);
          return b, true;
        }
        b := prev[b];
        i := i - 1;
      }
      AllUsed(order, refcnt);
      return 0, false;
    }

    method Reuse(ghost h: nat, b: nat, k: Key)
      requires Sound(Now()) && h !in refs && k.dev != 0 && k in store
      requires b < NBUF && |refcnt| == |key| == NBUF && refcnt[b] == 0
      requires forall c :: 0 <= c < NBUF ==> key[c] != k
      modifies this`key, this`refcnt, this`valid, this`refs
      ensures Sound(Now()) && Shape(old(Now())) && Now() == Recycle(old(Now()), h, b, k)
    {
      hide Sound;
      SoundShape(Now());
      RecycleSound(Now(), h, b, k);
      key, valid, refcnt := key[b := k], valid[b := false], refcnt[b := 1];
      refs := refs[h := Ref(b, k)];
    }

    /** acquiresleep(&b->lock), when it succeeds. */
    method Acquire(h: nat, b: nat)
      requires Valid() && h in refs && refs[h].b == b < NBUF && lock[b] == None
      modifies this`lock
      ensures Valid() && Now() == Locked(old(Now()), b, Some(h))
    {
      hide Sound, Ring;
      SoundShape(Now());
      LockSound(Now(), h, b);
      lock := lock[b := Some(h)];
    }

    /** The rest of bread: the buffer has the latest value of the block it was asked for. */
    method Fill(ghost h: nat, b: nat)
      requires Valid() && Holding(Now(), h, b)
      modifies this`data, this`valid
      ensures Valid() && Ready(Now(), h, b) && key[b] == refs[h].key && key[b] in store && data[b] == store[key[b]]
      ensures Now() == if old(valid)[b] then old(Now()) else Filled(old(Now()), b)
    {
      hide Sound, Ring;
      HeldFacts(Now(), h);
      if !valid[b] {
        FillSound(Now(), h, b);
        data := data[b := disk[key[b]]];
        valid := valid[b := true];
      }
    }

    /** The holder writes d into b->data. */
    method Modify(ghost h: nat, b: nat, d: Block)
      requires Valid() && Ready(Now(), h, b)
      modifies this`data, this`store
      ensures Valid() && Now() == Modified(old(Now()), b, d)
    {
      hide Sound, Ring;
      ModifySound(Now(), h, b, d);
      data := data[b := d];
      store := store[key[b] := d];
    }

    /** bwrite */
    method BWrite(ghost h: nat, b: nat)
      requires Valid() && Ready(Now(), h, b)
      modifies this`disk
      ensures Valid() && Now() == Written(old(Now()), b)
    {
      hide Sound, Ring;
      WriteSound(Now(), h, b);
      disk := disk[key[b] := data[b]];
    }

    /** log_write: absorbs a block that is in the header; else adds it and pins its buffer. */
    method LogWrite(ghost h: nat, b: nat)
      requires Valid() && Ready(Now(), h, b) && done == 0
      modifies this`refcnt, this`logged, this`pinned
      ensures Valid() && Now() == if old(key)[b] in old(logged) then old(Now()) else Pinned(old(Now()), b)
      ensures b in pinned && key[b] in logged
    {
      hide Sound, Ring;
      HeldFacts(Now(), h);
      var i := 0;
      while i < |logged| && logged[i] != key[b]
        invariant i <= |logged| && key[b] !in logged[..i]
      {
        i := i + 1;
      }
      if i == |logged| {
        assert logged[..i] == logged;
        PinSound(Now(), h, b);
        refcnt := refcnt[b := refcnt[b] + 1];
        pinned := pinned + {b};
        logged := logged + [key[b]];
        assert logged[i] == key[b];
      } else {
        LoggedPinned(Now(), b, i);
      }
    }

    /** bunpin, in install_trans */
    method BUnpin(ghost h: nat, b: nat)
      requires Valid() && Ready(Now(), h, b) && done < |logged|
      requires logged[done] == key[b] && key[b] in disk && disk[key[b]] == data[b]
      modifies this`refcnt, this`pinned, this`done
      ensures Valid() && b in old(pinned) && Now() == Unpinned(old(Now()), b)
    {
      hide Sound, Ring;
      UnpinSound(Now(), h, b);
      refcnt := refcnt[b := refcnt[b] - 1];
      pinned := pinned - {b};
      done := done + 1;
    }

    /** brelse: releasesleep. What was changed must have been logged or written. */
    method Release(ghost h: nat, b: nat)
      requires Valid() && Ready(Now(), h, b) && (b in pinned || (key[b] in disk && disk[key[b]] == data[b]))
      modifies this`lock
      ensures Valid() && Now() == Locked(old(Now()), b, None)
    {
      hide Sound, Ring;
      UnlockSound(Now(), h, b);
      lock := lock[b := None];
    }

    /** brelse: the rest. A buffer that nobody uses any more becomes the most recently used. */
    method Drop(ghost h: nat, b: nat)
      requires Valid() && h in refs && refs[h].b == b < NBUF && lock[b] != Some(h)
      modifies this`refcnt, this`refs, this`next, this`prev, this`order
      ensures Valid() && Now() == Dropped(old(Now()), h)
      ensures if refcnt[b] == 0 then order == MovedFront(old(order), b) else order == old(order)
      ensures refcnt[b] == 0 ==>
        exists k :: 0 <= k < |old(order)| && old(order)[k] == b && order == [b] + Removed(old(order), k)
    {
      hide Sound, Ring;
      SoundShape(Now());
      DropSound(Now(), h);
      refcnt := refcnt[b := refcnt[b] - 1];
      refs := refs - {h};
      if refcnt[b] == 0 {
        ToFront(b);
      }
    }

    /**
     bread, up to where it may sleep: Full is bget's panic, and with Asleep the reference is
     counted and the rest, Acquire and Fill, comes when whoever has the buffer locked releases it.
     */
    method BRead(h: nat, k: Key) returns (b: nat, r: Outcome)
      requires Valid() && h !in refs && k.dev != 0 && k in store
      modifies this`key, this`refcnt, this`valid, this`refs, this`lock, this`data
      ensures Valid() && (r == Asleep <==> !Unlocked(old(Now()), k))
      ensures r == Full ==> Now() == old(Now()) && forall c :: 0 <= c < NBUF ==> key[c] != k && refcnt[c] != 0
      ensures r == Asleep ==> b < NBUF && old(key)[b] == k && old(lock)[b] != None && Now() == Hit(old(Now()), h, b)
      ensures r == Got ==> b < NBUF && Now() == Fetched(old(Now()), h, b, k) && Ready(Now(), h, b)
      ensures r == Got ==> old(lock)[b] == None && (old(key)[b] == k || (old(refcnt)[b] == 0 && k !in old(key)))
    {
      hide Sound, Ring, Coldest;
      SoundShape(Now());
      ghost var s := Now();
      var ok;
      b, ok := BGet(h, k);
      OneBuffer(s, k);
      if !ok {
        return b, Full;
      }
      UnlockedWhenUnused(s, b);
      if lock[b] != None {
        return b, Asleep;
      }
      Acquire(h, b);
      Fill(h, b);
      assert Now().data == s.data[b := s.store[k]];
      return b, Got;
    }

    /** brelse */
    method BRelse(ghost h: nat, b: nat)
      requires Valid() && Ready(Now(), h, b) && (b in pinned || (key[b] in disk && disk[key[b]] == data[b]))
      modifies this`lock, this`refcnt, this`refs, this`next, this`prev, this`order
      ensures Valid() && Now() == Released(old(Now()), h, b)
    {
      hide Sound, Ring, MovedFront;
      Release(h, b);
      Drop(h, b);
    }

    /** Two blocks are read, one after the other, when nobody has them locked. */
    method ReadBoth(h: nat, j: Key, g: nat, k: Key) returns (b: nat, c: nat, ok: bool)
      requires Valid() && h != g && h !in refs && g !in refs && j != k
      requires j.dev != 0 && k.dev != 0 && j in store && k in store
      requires Unlocked(Now(), j) && Unlocked(Now(), k)
      modifies this`key, this`refcnt, this`valid, this`refs, this`lock, this`data
      ensures ok ==> Valid() && Both(old(Now()), b, j, c, k) && Now() == Fetched(Fetched(old(Now()), h, b, j), g, c, k)
      ensures ok ==> Ready(Now(), h, b) && Ready(Now(), g, c)
      ensures ok ==> old(key)[b := j][c] == k || k !in old(key)[b := j]
    {
      hide Sound, Ring;
      var r;
      ghost var s := Now();
      SoundShape(s);
      b, r := BRead(h, j);
      if r != Got {
        return b, b, false;
      }
      ghost var t := Now();
      Referenced(t, h);
      StillUnlocked(s, h, b, j, k);
      c, r := BRead(g, k);
      return b, c, r == Got;
    }

    /** One turn of write_log: a listed block's buffer is copied into the log block's buffer, and that is written. */
    method CopyOne(h: nat, g: nat, from: Key, to: Key) returns (ok: bool, ghost bt: nat, ghost bf: nat)
      requires Valid() && h != g && h !in refs && g !in refs && from != to && from.dev != 0 && to.dev != 0
      requires from in store && to in store && from in logged && done == 0
      requires Unlocked(Now(), from) && Unlocked(Now(), to)
      modifies this
      ensures ok ==> Valid() && Both(old(Now()), bt, to, bf, from) && Now() == CopiedOver(old(Now()), bt, to, bf, from)
    {
      hide Sound, Ring;
      ghost var s := Now();
      var b, c;
      b, c, ok := ReadBoth(h, to, g, from);
      bt, bf := b, c;
      if ok {
        ListedPinned(Now(), c, from);
        Modify(h, b, data[c]);
        BWrite(h, b);
        BRelse(g, c);
        BRelse(h, b);
        CopyResult(s, h, b, to, g, c, from);
      }
    }

    /** The middle of that turn: memmove, bwrite, bunpin. */
    method WriteHome(ghost g: nat, c: nat, d: Block)
      requires Valid() && Ready(Now(), g, c) && done < |logged| && logged[done] == key[c] && key[c] in store
      modifies this`data, this`store, this`disk, this`refcnt, this`pinned, this`done
      ensures Valid() && Ready(Now(), g, c) && Now() == Unpinned(Written(Modified(old(Now()), c, d), c), c)
    {
      hide Sound, Ring;
      Modify(g, c, d);
      BWrite(g, c);
      BUnpin(g, c);
    }

    /**
     One turn of install_trans: the log block's buffer is copied into the pinned buffer of the
     next block of the header, which is written home and unpinned.
     */
    method InstallOne(h: nat, g: nat, from: Key) returns (ok: bool, ghost bf: nat, ghost bt: nat)
      requires Valid() && h != g && h !in refs && g !in refs && done < |logged| && logged[done] != from && from.dev != 0
      requires from in store && from in disk && disk[from] == store[from]
      requires logged[done] in store && store[from] == store[logged[done]]
      requires Unlocked(Now(), from) && Unlocked(Now(), logged[done])
      modifies this
      ensures ok ==> Valid() && Both(old(Now()), bf, from, bt, old(logged[done]))
      ensures ok ==> Now() == InstalledOver(old(Now()), bf, from, bt)
    {
      hide Sound, Ring;
      ghost var s := Now();
      ghost var p := PinnedBuffer(s);
      var b, c;
      b, c, ok := ReadBoth(h, from, g, logged[done]);
      bf, bt := b, c;
      if ok {
        StillThere(s, p, b, from);
        WriteHome(g, c, data[b]);
        BRelse(h, b);
        BRelse(g, c);
        InstallResult(s, h, b, from, g, c);
      }
    }

    /** write_log, when nobody else has those blocks locked; false is the panic of bget. */
    method CopyAll(h: nat, g: nat, dev: nat, start: nat) returns (ok: bool)
      requires Valid() && h != g && h !in refs && g !in refs && done == 0 && LogReady(Now(), dev, start)
      modifies this
      ensures ok ==> Valid() && Quiet(old(Now()), Now()) && LogReady(Now(), dev, start)
      ensures ok ==> OnlyLogChanged(old(Now()), Now(), dev, start) && Staged(Now(), dev, start, |logged|)
    {
      hide Sound, Ring, LogReady, OnlyLogChanged, Staged, CopiedOver, Both;
      ok := true;
      QuietStart(Now(), dev, start);
      for tail := 0 to |logged|
        invariant Valid() && Quiet(old(Now()), Now()) && LogReady(Now(), dev, start)
        invariant OnlyLogChanged(old(Now()), Now(), dev, start) && Staged(Now(), dev, start, tail)
      {
        ghost var s := Now();
        ReadyAt(s, dev, start, tail);
        ghost var bt, bf;
        ok, bt, bf := CopyOne(h, g, logged[tail], LogKey(dev, start, tail));
        if !ok {
          return;
        }
        CopyStaged(old(Now()), s, Now(), dev, start, tail, bt, bf);
      }
    }

    /**
     install_trans after write_log, when nobody else has those blocks locked: every block of the
     header gets from the log what its pinned buffer has, is written home, and unpinned once.
     */
    method InstallAll(h: nat, g: nat, dev: nat, start: nat) returns (ok: bool)
      requires Valid() && h != g && h !in refs && g !in refs && done == 0
      requires LogReady(Now(), dev, start) && Staged(Now(), dev, start, |logged|)
      modifies this
      ensures ok ==> Valid() && pinned == {} && logged == [] && store == old(store) && refs == old(refs)
      ensures ok ==> forall k :: k in old(logged) ==> k in disk && k in store && disk[k] == store[k]
      ensures ok ==> forall k :: k in disk && k !in old(logged) ==> k in old(disk) && disk[k] == old(disk)[k]
    {
      hide Sound, Ring, LogReady, Staged, InstalledOver, Both, HomeFrom;
      ok := true;
      HomeStart(Now());
      for tail := 0 to |logged|
        invariant Valid() && done == tail && logged == old(logged) && store == old(store) && refs == old(refs)
        invariant LogReady(Now(), dev, start) && Staged(Now(), dev, start, |logged|) && HomeFrom(old(disk), Now())
      {
        ghost var s := Now();
        ReadyAt(s, dev, start, tail);
        StagedAt(s, dev, start, |logged|, tail);
        ghost var bf, bt;
        ok, bf, bt := InstallOne(h, g, LogKey(dev, start, tail));
        if !ok {
          return;
        }
        InstallStaged(old(disk), s, Now(), dev, start, bf, bt);
      }
      HomeEnd(old(disk), Now());
      ClearSound(Now());
      logged, done := [], 0;
    }

    /**
     commit's copies: write_log and install_trans. Home blocks keep their latest values, which
     are then on the disk.
     */
    method Commit(h: nat, g: nat, dev: nat, start: nat) returns (ok: bool)
      requires Valid() && h != g && h !in refs && g !in refs && done == 0 && LogReady(Now(), dev, start)
      modifies this
      ensures ok ==> Valid() && pinned == {} && logged == [] && refs == old(refs)
      ensures ok ==> forall k :: k in old(store) && !InRegion(k, dev, start) ==> k in store && store[k] == old(store)[k]
      ensures ok ==> forall k :: k in old(logged) ==> k in disk && k in store && disk[k] == store[k]
    {
      hide Sound, Ring, LogReady, Staged;
      ok := CopyAll(h, g, dev, start);
      if ok {
        ok := InstallAll(h, g, dev, start);
      }
    }

    method ToFront(b: nat)
      requires Ring(next, prev, order) && Everyone(order) && b < NBUF
      modifies this`next, this`prev, this`order
      ensures Ring(next, prev, order) && Everyone(order) && order == MovedFront(old(order), b)
    {
      hide Ring;
      ghost var k := IndexOf(order, b);
      RingShape(next, prev, order);
      Unlink(next, prev, order, k);
      var n, p := next[b], prev[b];
      prev := prev[n := p];
      next := next[p := n];
      FrontEveryone(next, prev, order, k);
      order := Removed(order, k);
      NotRemoved(old(next), old(prev), old(order), k);
      PushFront(b);
    }
  }

  /** b is unused, and everything used less recently is not. */
  ghost predicate Coldest(order: seq<nat>, refcnt: seq<int>, b: nat) {
    exists i :: 0 <= i < |order| && order[i] == b < |refcnt| && refcnt[b] == 0
      && forall j :: i < j < |order| ==> order[j] < |refcnt| && refcnt[order[j]] != 0
  }

  lemma IsColdest(order: seq<nat>, refcnt: seq<int>, i: nat)
    requires i < |order| && (forall j :: 0 <= j < |order| ==> order[j] < |refcnt|)
    requires refcnt[order[i]] == 0 && forall j :: i < j < |order| ==> refcnt[order[j]] != 0
    ensures Coldest(order, refcnt, order[i])
  {
  }

  lemma EveryoneLength(order: seq<nat>)
    requires Everyone(order)
    ensures |order| == NBUF
  {
  }

  ghost function IndexOf(order: seq<nat>, b: nat): (k: nat)
    requires b in order
    ensures k < |order| && order[k] == b
  {
    var k :| 0 <= k < |order| && order[k] == b;
    k
  }

  ghost function MovedFront(order: seq<nat>, b: nat): seq<nat>
    requires b in order
  {
    [b] + Removed(order, IndexOf(order, b))
  }

  lemma RingShape(next: seq<nat>, prev: seq<nat>, order: seq<nat>)
    requires Ring(next, prev, order)
    ensures |next| == |prev| == HEAD + 1 && forall i :: 0 <= i < |order| ==> order[i] < NBUF
  {
  }

  lemma NowhereElse(order: seq<nat>, key: seq<Key>, k: Key)
    requires Everyone(order) && |key| == NBUF && (forall j :: 0 <= j < NBUF ==> order[j] < NBUF && key[order[j]] != k)
    ensures forall c :: 0 <= c < NBUF ==> key[c] != k
  {
    forall c: nat | c < NBUF ensures key[c] != k {
      assert c in order;
    }
  }

  lemma AllUsed(order: seq<nat>, refcnt: seq<int>)
    requires Everyone(order) && |refcnt| == NBUF
    requires (forall j :: 0 <= j < NBUF ==> order[j] < NBUF && refcnt[order[j]] != 0)
    ensures forall c :: 0 <= c < NBUF ==> refcnt[c] != 0
  {
    forall c: nat | c < NBUF ensures refcnt[c] != 0 {
      assert c in order;
    }
  }

  lemma LoggedPinned(s: Snap, b: nat, i: nat)
    requires Sound(s) && b < NBUF && s.key[b].dev != 0 && s.done <= i < |s.logged| && s.logged[i] == s.key[b]
    ensures b in s.pinned
  {
    assert LogOk(s, i);
  }

  /** A buffer that is not in use is not locked. */
  lemma UnlockedWhenUnused(s: Snap, b: nat)
    requires Sound(s) && b < NBUF
    ensures s.refcnt[b] == 0 ==> s.lock[b] == None
  {
    if s.refcnt[b] == 0 {
      Unused(s, b);
    }
  }

  /** The buffer that has the next block of the header. */
  lemma PinnedBuffer(s: Snap) returns (b: nat)
    requires Sound(s) && s.done < |s.logged|
    ensures b in s.pinned && b < NBUF && s.key[b] == s.logged[s.done] && s.key[b].dev != 0 && s.key[b] in s.store
    ensures forall c :: 0 <= c < NBUF && s.key[c] == s.key[b] ==> c == b
  {
    assert LogOk(s, s.done);
    b :| b in s.pinned && b < NBUF && s.key[b] == s.logged[s.done];
    Facts(s, b);
  }

  lemma NotRemoved(next: seq<nat>, prev: seq<nat>, order: seq<nat>, k: nat)
    requires Ring(next, prev, order) && k < |order|
    ensures order[k] !in Removed(order, k)
  {
    var r := Removed(order, k);
    forall i | 0 <= i < |r| ensures r[i] != order[k] {
      assert r[i] == order[if i < k then i else i + 1];
    }
  }

  lemma FrontEveryone(next: seq<nat>, prev: seq<nat>, order: seq<nat>, k: nat)
    requires Everyone(order) && k < |order|
    ensures Everyone([order[k]] + Removed(order, k))
  {
    var r := [order[k]] + Removed(order, k);
    forall b: nat | b < NBUF ensures b in r {
      assert b in order;
      var i :| 0 <= i < |order| && order[i] == b;
      if i < k {
        assert r[i + 1] == b;
      } else if i > k {
        assert r[i] == b;
      } else {
        assert r[0] == b;
      }
    }
  }

  lemma EmptyRing(next: seq<nat>, prev: seq<nat>)
    requires |next| == |prev| == HEAD + 1 && next[HEAD] == prev[HEAD] == HEAD
    ensures Ring(next, prev, [])
  {
    assert Links(next, prev, [], 0);
  }

}
