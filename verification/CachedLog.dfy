/**
 The log of kernel/log.c over the buffer cache of kernel/bio.c: every process's steps on
 buffers, and the memmoves and bwrites of commit and recovery, interleaved, with a crash
 possible at any time.

 c is the cache and the disk below it. s is the log's own state, in the terms of module Log;
 its disk and mem are what the disk and the cache are proved to hold.
 */
module CachedLog {
  import opened Common
  import opened Runs
  import L = Log
  import C = BufferCache

  /**
   What commit or recovery is in the middle of: a buffer is filled and not written yet, or
   written and still pinned.
   */
  datatype Work = Idle | Staged | Unpinning

  datatype State = State(dev: nat, c: C.Snap, s: L.State, work: Work)

  /** A step that concerns references, locks and contents read from the disk. */
  datatype Micro =
    | Hit(h: nat, b: nat)
    | Recycle(h: nat, b: nat, k: C.Key)
    | Lock(h: nat, b: nat)
    | Unlock(h: nat, b: nat)
    | Fill(h: nat, b: nat)
    | Drop(h: nat)

  datatype Action =
    | Use(m: Micro)                              // bget, acquiresleep, bread, brelse, by anybody
    | Begin(id: nat)
    | Change(h: nat, b: nat, i: nat, v: L.Block) // an operation changes a locked buffer
    | Record(h: nat, b: nat, i: nat)             // log_write
    | End(i: nat)
    | Copy(h: nat, b: nat, g: nat, e: nat)       // the memmove of write_log and of install_trans, from buffer e to b
    | FillHead(h: nat, b: nat)                   // write_head, up to its bwrite
    | Flush(h: nat, b: nat)                      // bwrite
    | Unpin(h: nat, b: nat)                      // bunpin, in install_trans
    | Proceed                                    // from one loop to the next, or committing = 0
    | LoadHead(h: nat, b: nat)                   // read_head
    | Crash

  function K(x: State, b: nat): C.Key {
    C.Key(x.dev, b)
  }

  function Keys(dev: nat, lh: seq<nat>): seq<C.Key> {
    seq(|lh|, i requires 0 <= i < |lh| => C.Key(dev, lh[i]))
  }

  predicate Recovering(pc: L.Pc) {
    pc == L.ReadHead || pc.Reinstall? || pc == L.Reclear
  }

  predicate InLoop(pc: L.Pc) {
    pc.CopyToLog? || pc.Install? || pc.Reinstall?
  }

  predicate AtHead(pc: L.Pc) {
    pc == L.WriteHead || pc == L.ClearHead || pc == L.Reclear
  }

  /** A block write is due. */
  predicate Due(s: L.State) {
    AtHead(s.pc) || (InLoop(s.pc) && s.pc.tail < |s.lh|)
  }

  /** The block it goes to. */
  function Target(s: L.State): nat
    requires Due(s)
  {
    if AtHead(s.pc) then s.start else if s.pc.CopyToLog? then s.start + 1 + s.pc.tail else s.lh[s.pc.tail]
  }

  /** The block that the memmove reads. */
  function Source(s: L.State): nat
    requires Due(s) && !AtHead(s.pc)
  {
    if s.pc.CopyToLog? then s.lh[s.pc.tail] else s.start + 1 + s.pc.tail
  }

  /** What is to be written. */
  ghost function Value(s: L.State): L.Block
    requires L.Shaped(s) && Due(s)
  {
    if AtHead(s.pc) then L.Encode(s.lh, s.disk[s.start])
    else if s.pc.CopyToLog? then s.mem[s.lh[s.pc.tail]] else s.disk[s.start + 1 + s.pc.tail]
  }

  // ---------------------------------------------------------------- steps

  ghost predicate MicroEnabled(c: C.Snap, m: Micro) {
    && C.Shape(c)
    && match m
       case Hit(h, b) => b < C.NBUF && h !in c.refs && c.key[b].dev != 0 && c.key[b] in c.store
       case Recycle(h, b, k) =>
         && b < C.NBUF && c.refcnt[b] == 0 && h !in c.refs && k in c.store && k.dev != 0
         && forall e :: 0 <= e < C.NBUF ==> c.key[e] != k
       case Lock(h, b) => h in c.refs && c.refs[h].b == b < C.NBUF && c.lock[b] == None
       case Unlock(h, b) =>
         && C.Holding(c, h, b)
         && (c.valid[b] ==> b in c.pinned || (c.key[b] in c.disk && c.disk[c.key[b]] == c.data[b]))
       case Fill(h, b) => C.Holding(c, h, b) && !c.valid[b] && c.key[b] in c.disk
       case Drop(h) => h in c.refs && c.refs[h].b < C.NBUF && c.lock[c.refs[h].b] != Some(h)
  }

  function MicroApply(c: C.Snap, m: Micro): C.Snap
    requires MicroEnabled(c, m)
  {
    match m
    case Hit(h, b) => C.Hit(c, h, b)
    case Recycle(h, b, k) => C.Recycle(c, h, b, k)
    case Lock(h, b) => C.Locked(c, b, Some(h))
    case Unlock(_, b) => C.Locked(c, b, None)
    case Fill(_, b) => C.Filled(c, b)
    case Drop(h) => C.Dropped(c, h)
  }

  /** h has block n's buffer b locked, with its contents. */
  ghost predicate Has(x: State, h: nat, b: nat, n: nat) {
    C.Ready(x.c, h, b) && x.c.key[b] == K(x, n)
  }

  ghost predicate Enabled(x: State, a: Action) {
    && C.Shape(x.c)
    && match a
       case Use(m) => MicroEnabled(x.c, m)
       case Begin(id) => L.Enabled(x.s, L.Begin(id))
       case Change(h, b, i, v) =>
         C.Ready(x.c, h, b) && x.c.key[b].dev == x.dev && L.Enabled(x.s, L.Modify(i, x.c.key[b].blockno, v))
       case Record(h, b, i) =>
         C.Ready(x.c, h, b) && x.c.key[b].dev == x.dev && L.Enabled(x.s, L.LogWrite(i, x.c.key[b].blockno))
       case End(i) => L.Enabled(x.s, L.End(i))
       case Copy(h, b, g, e) =>
         x.work == Idle && Due(x.s) && !AtHead(x.s.pc) && Has(x, h, b, Target(x.s)) && Has(x, g, e, Source(x.s))
       case FillHead(h, b) =>
         && x.work == Idle && AtHead(x.s.pc) && Has(x, h, b, x.s.start)
         && |x.s.lh| <= L.LOGBLOCKS && |x.c.data[b]| == L.WORDS
       case Flush(h, b) => x.work == Staged && Due(x.s) && Has(x, h, b, Target(x.s))
       case Unpin(h, b) =>
         && x.work == Unpinning && C.Ready(x.c, h, b) && x.c.done < |x.c.logged| && x.c.logged[x.c.done] == x.c.key[b]
       case Proceed =>
         x.work == Idle && ((InLoop(x.s.pc) && x.s.pc.tail == |x.s.lh|) || x.s.pc == L.Unlock)
       case LoadHead(h, b) => x.s.pc == L.ReadHead && Has(x, h, b, x.s.start)
       case Crash => true
  }

  /** What binit makes of memory. */
  function Booted(disk: map<C.Key, C.Block>): C.Snap {
    C.Snap(seq(C.NBUF, i => C.Key(0, 0)), seq(C.NBUF, i => 0), seq(C.NBUF, i => false), seq(C.NBUF, i => []),
           seq(C.NBUF, i => None), disk, [], 0, map[], {}, disk)
  }

  ghost function Apply(x: State, a: Action): State
    requires Enabled(x, a) && L.Shaped(x.s)
  {
    match a
    case Use(m) => x.(c := MicroApply(x.c, m))
    case Begin(id) => x.(s := L.Apply(x.s, L.Begin(id)))
    case Change(h, b, i, v) =>
      x.(c := C.Modified(x.c, b, v), s := L.Apply(x.s, L.Modify(i, x.c.key[b].blockno, v)))
    case Record(h, b, i) =>
      x.(c := if x.c.key[b] in x.c.logged then x.c else C.Pinned(x.c, b),
         s := L.Apply(x.s, L.LogWrite(i, x.c.key[b].blockno)))
    case End(i) => x.(s := L.Apply(x.s, L.End(i)))
    case Copy(_, b, _, e) => x.(c := C.Modified(x.c, b, x.c.data[e]), work := Staged)
    case FillHead(_, b) => x.(c := C.Modified(x.c, b, L.Encode(x.s.lh, x.c.data[b])), work := Staged)
    case Flush(_, b) =>
      x.(c := C.Written(x.c, b), s := L.Advanced(x.s), work := if x.s.pc.Install? then Unpinning else Idle)
    case Unpin(_, b) => x.(c := C.Unpinned(x.c, b), work := Idle)
    case Proceed =>
      x.(c := if x.s.pc.Install? then x.c.(logged := [], done := 0) else x.c, s := L.Advanced(x.s))
    case LoadHead(_, _) => x.(s := L.Advanced(x.s))
    case Crash => x.(c := Booted(x.c.disk), s := L.Crashed(x.s), work := Idle)
  }

  // ---------------------------------------------------------------- what joins the two

  ghost predicate Moving(x: State, b: nat) {
    x.work == Staged && Due(x.s) && b == Target(x.s)
  }

  /**
   Block b: the two disks agree; the cache has what the log's memory has; a block of the log,
   and in recovery any block, is cached as it is on disk, but for the one being written.
   */
  ghost predicate BlockOk(x: State, b: nat)
    requires L.Shaped(x.s) && C.Shape(x.c)
  {
    && (b in x.s.disk <==> K(x, b) in x.c.disk) && (b in x.s.mem ==> b in x.s.disk)
    && (b in x.s.disk ==>
          && x.s.disk[b] == x.c.disk[K(x, b)]
          && (b in x.s.mem && !(Recovering(x.s.pc) && Moving(x, b)) ==> x.c.store[K(x, b)] == x.s.mem[b])
          && ((Recovering(x.s.pc) || !L.IsHome(x.s.start, b)) && !Moving(x, b) ==>
                x.c.store[K(x, b)] == x.c.disk[K(x, b)])
          && (Moving(x, b) ==> x.c.store[K(x, b)] == Value(x.s)))
  }

  /** The header in memory, how far install_trans has got with it, and where commit can be. */
  predicate ListOk(x: State) {
    && x.c.logged == Keys(x.dev, if Recovering(x.s.pc) then [] else x.s.lh)
    && (x.work == Staged ==> Due(x.s)) && (x.work == Unpinning ==> x.s.pc.Install? && x.s.pc.tail > 0)
    && x.c.done == if !x.s.pc.Install? then 0 else if x.work == Unpinning then x.s.pc.tail - 1 else x.s.pc.tail
  }

  ghost predicate Inv(x: State) {
    && x.dev != 0 && L.Good(x.s) && L.Shaped(x.s) && C.Sound(x.c) && C.Shape(x.c) && ListOk(x)
    && forall b: nat {:trigger BlockOk(x, b)} :: BlockOk(x, b)
  }

  lemma At(x: State, b: nat)
    requires Inv(x)
    ensures BlockOk(x, b)
  {
  }

  // ---------------------------------------------------------------- facts about the two parts

  lemma MicroSound(c: C.Snap, m: Micro)
    requires C.Sound(c) && MicroEnabled(c, m)
    ensures var d := MicroApply(c, m);
      && C.Sound(d) && C.Shape(d) && d.disk == c.disk && d.store == c.store && d.logged == c.logged && d.done == c.done
  {
    hide C.Sound;
    match m
    case Hit(h, b) => C.HitSound(c, h, b);
    case Recycle(h, b, k) => C.RecycleSound(c, h, b, k);
    case Lock(h, b) => C.LockSound(c, h, b);
    case Unlock(h, b) => C.UnlockSound(c, h, b);
    case Fill(h, b) => C.FillSound(c, h, b);
    case Drop(h) => C.DropSound(c, h);
  }

  /** A locked buffer has the latest value of its block. */
  lemma Latest(c: C.Snap, h: nat, b: nat)
    requires C.Sound(c) && C.Ready(c, h, b)
    ensures c.key[b] in c.store && c.data[b] == c.store[c.key[b]] && c.key[b].dev != 0
  {
    C.HeldFacts(c, h);
  }

  /** What the log has in memory are home blocks. */
  lemma MemHome(s: L.State, b: nat)
    requires L.Good(s) && b in s.mem
    ensures b in s.disk && L.IsHome(s.start, b)
  {
    hide L.Effect, L.Covered, L.Copied, L.Installed, L.Space, L.History;
  }

  /** The block write that is due: where it goes, and what it has to do with the log's memory. */
  lemma DueFacts(s: L.State)
    requires L.Good(s) && Due(s)
    ensures L.Shaped(s) && Target(s) in s.disk && (s.pc == L.Reclear ==> s.lh == [])
    ensures AtHead(s.pc) || s.pc.CopyToLog? ==> !L.IsHome(s.start, Target(s))
    ensures !AtHead(s.pc) ==> Source(s) in s.disk
    ensures !AtHead(s.pc) ==> if s.pc.CopyToLog? then Source(s) in s.mem else !L.IsHome(s.start, Source(s))
    ensures s.pc.Install? ==> Target(s) in s.mem && Value(s) == s.mem[Target(s)]
  {
    hide L.Effect, L.Covered, L.Copied, L.Installed, L.Space, L.History;
    if s.pc.Install? {
      L.InstallFinds(s);
    }
  }

  /** The log's own step for it. */
  lemma DueStep(s: L.State)
    requires L.Shaped(s) && Due(s)
    ensures var t := L.Advanced(s);
      && t.start == s.start && t.lh == s.lh && t.disk == s.disk[Target(s) := Value(s)]
      && t.mem == (if s.pc.Install? || s.pc.Reinstall? then s.mem[Target(s) := Value(s)]
                   else if s.pc == L.Reclear then L.HomeOf(s.start, s.disk) + s.mem else s.mem)
      && (if s.pc == L.Reclear then t.pc == L.Running else Recovering(t.pc) == Recovering(s.pc))
      && (if s.pc.Install? then t.pc == L.Install(s.pc.tail + 1) else t.pc.Install? ==> t.pc == L.Install(0))
  {
    hide L.Geometry, L.Encode;
  }

  // ---------------------------------------------------------------- every step keeps it

  lemma UseKeeps(x: State, m: Micro)
    requires Inv(x) && Enabled(x, Use(m))
    ensures Inv(Apply(x, Use(m)))
  {
    hide L.Good, L.Shaped, C.Sound, MicroEnabled, MicroApply;
    MicroSound(x.c, m);
    var y := Apply(x, Use(m));
    forall b: nat ensures BlockOk(y, b) {
      At(x, b);
    }
  }

  lemma BeginKeeps(x: State, id: nat)
    requires Inv(x) && Enabled(x, Begin(id))
    ensures Inv(Apply(x, Begin(id)))
  {
    hide L.Good, L.Shaped, C.Sound;
    L.StepKeepsGood(x.s, L.Begin(id));
    var y := Apply(x, Begin(id));
    GoodShaped(y.s);
    forall b: nat ensures BlockOk(y, b) {
      At(x, b);
    }
  }

  lemma GoodShaped(s: L.State)
    requires L.Good(s)
    ensures L.Shaped(s)
  {
  }

  lemma EndKeeps(x: State, i: nat)
    requires Inv(x) && Enabled(x, End(i))
    ensures Inv(Apply(x, End(i)))
  {
    hide L.Good, L.Shaped, C.Sound;
    L.StepKeepsGood(x.s, L.End(i));
    var y := Apply(x, End(i));
    GoodShaped(y.s);
    forall b: nat ensures BlockOk(y, b) {
      At(x, b);
    }
  }

  lemma ChangeKeeps(x: State, h: nat, b: nat, i: nat, v: L.Block)
    requires Inv(x) && Enabled(x, Change(h, b, i, v))
    ensures Inv(Apply(x, Change(h, b, i, v)))
  {
    hide L.Good, L.Shaped, C.Sound;
    var n := x.c.key[b].blockno;
    var y := Apply(x, Change(h, b, i, v));
    L.StepKeepsGood(x.s, L.Modify(i, n, v));
    GoodShaped(y.s);
    C.ModifySound(x.c, h, b, v);
    C.SoundShape(y.c);
    MemHome(x.s, n);
    forall e: nat ensures BlockOk(y, e) {
      At(x, e);
    }
  }

  lemma KeysOf(dev: nat, lh: seq<nat>, n: nat)
    ensures C.Key(dev, n) in Keys(dev, lh) <==> n in lh
    ensures Keys(dev, lh + [n]) == Keys(dev, lh) + [C.Key(dev, n)]
  {
    if n in lh {
      var i :| 0 <= i < |lh| && lh[i] == n;
      assert Keys(dev, lh)[i] == C.Key(dev, n);
    }
  }

  lemma RecordKeeps(x: State, h: nat, b: nat, i: nat)
    requires Inv(x) && Enabled(x, Record(h, b, i))
    ensures Inv(Apply(x, Record(h, b, i)))
  {
    hide L.Good, L.Shaped, C.Sound;
    var n := x.c.key[b].blockno;
    var y := Apply(x, Record(h, b, i));
    L.StepKeepsGood(x.s, L.LogWrite(i, n));
    GoodShaped(y.s);
    KeysOf(x.dev, x.s.lh, n);
    if x.c.key[b] !in x.c.logged {
      C.PinSound(x.c, h, b);
      C.SoundShape(y.c);
    }
    forall e: nat ensures BlockOk(y, e) {
      At(x, e);
    }
  }

  /** A buffer is filled with what is to be written. */
  lemma StageKeeps(x: State, y: State, h: nat, b: nat)
    requires Inv(x) && x.work == Idle && Due(x.s) && Has(x, h, b, Target(x.s))
    requires y == x.(c := C.Modified(x.c, b, Value(x.s)), work := Staged)
    ensures Inv(y)
  {
    hide L.Good, L.Shaped, C.Sound, Value;
    C.ModifySound(x.c, h, b, Value(x.s));
    C.SoundShape(y.c);
    DueFacts(x.s);
    Latest(x.c, h, b);
    forall e: nat ensures BlockOk(y, e) {
      At(x, e);
      if e in x.s.mem {
        MemHome(x.s, e);
      }
    }
  }

  lemma CopyKeeps(x: State, h: nat, b: nat, g: nat, e: nat)
    requires Inv(x) && Enabled(x, Copy(h, b, g, e))
    ensures Inv(Apply(x, Copy(h, b, g, e)))
  {
    hide L.Good, L.Shaped, C.Sound;
    DueFacts(x.s);
    Latest(x.c, g, e);
    At(x, Source(x.s));
    assert x.c.data[e] == Value(x.s);
    StageKeeps(x, Apply(x, Copy(h, b, g, e)), h, b);
  }

  lemma FillHeadKeeps(x: State, h: nat, b: nat)
    requires Inv(x) && Enabled(x, FillHead(h, b))
    ensures Inv(Apply(x, FillHead(h, b)))
  {
    hide L.Good, L.Shaped, C.Sound, L.Encode;
    DueFacts(x.s);
    Latest(x.c, h, b);
    At(x, x.s.start);
    StageKeeps(x, Apply(x, FillHead(h, b)), h, b);
  }

  lemma FlushBlock(x: State, y: State, h: nat, b: nat, e: nat)
    requires Inv(x) && x.work == Staged && Due(x.s) && Has(x, h, b, Target(x.s)) && L.Shaped(y.s) && C.Shape(y.c)
    requires y.dev == x.dev && y.work != Staged && y.s == L.Advanced(x.s) && y.c == C.Written(x.c, b)
    ensures BlockOk(y, e)
  {
    hide L.Good, L.Shaped, C.Sound, Value, L.Advanced;
    DueFacts(x.s);
    DueStep(x.s);
    Latest(x.c, h, b);
    At(x, Target(x.s));
    At(x, e);
    if e in x.s.mem {
      MemHome(x.s, e);
    }
  }

  lemma FlushKeeps(x: State, h: nat, b: nat)
    requires Inv(x) && Enabled(x, Flush(h, b))
    ensures Inv(Apply(x, Flush(h, b)))
  {
    hide L.Good, L.Shaped, C.Sound, L.Advanced, BlockOk, L.Apply;
    var y := Apply(x, Flush(h, b));
    AdvanceGood(x.s);
    C.WriteSound(x.c, h, b);
    C.SoundShape(y.c);
    DueFacts(x.s);
    DueStep(x.s);
    forall e: nat ensures BlockOk(y, e) {
      FlushBlock(x, y, h, b, e);
    }
  }

  lemma AdvanceGood(s: L.State)
    requires L.Good(s) && s.pc != L.Running
    ensures L.Shaped(s) && L.Good(L.Advanced(s)) && L.Shaped(L.Advanced(s))
  {
    hide L.Good, L.Shaped;
    L.StepKeepsGood(s, L.Advance);
    GoodShaped(L.Advanced(s));
  }

  /** A block that install_trans has written is on the disk as it is in memory. */
  lemma InstalledMem(s: L.State, k: nat)
    requires L.Good(s) && s.pc.Install? && k < s.pc.tail
    ensures s.pc.tail <= |s.lh| && s.lh[k] in s.disk && s.lh[k] in s.mem && s.disk[s.lh[k]] == s.mem[s.lh[k]]
  {
    hide L.Geometry, L.Effect, L.Safe, L.Space, L.History, L.InMemory;
    L.InMemoryFacts(s.origin, s.mem, s.lh, s.events);
    assert s.events[..|s.events|] == s.events;
  }

  lemma UnpinKeeps(x: State, h: nat, b: nat)
    requires Inv(x) && Enabled(x, Unpin(h, b))
    ensures Inv(Apply(x, Unpin(h, b)))
  {
    hide L.Good, L.Shaped, C.Sound;
    var y := Apply(x, Unpin(h, b));
    var k := x.s.pc.tail - 1;
    InstalledMem(x.s, k);
    Latest(x.c, h, b);
    At(x, x.s.lh[k]);
    C.UnpinSound(x.c, h, b);
    C.SoundShape(y.c);
    forall e: nat ensures BlockOk(y, e) {
      At(x, e);
    }
  }

  lemma ProceedStep(s: L.State)
    requires L.Shaped(s) && ((InLoop(s.pc) && s.pc.tail == |s.lh|) || s.pc == L.Unlock)
    ensures var t := L.Advanced(s);
      && t == s.(lh := t.lh, pc := t.pc) && t.lh == (if s.pc.Install? || s.pc.Reinstall? then [] else s.lh)
      && Recovering(t.pc) == Recovering(s.pc) && !t.pc.Install?
  {
    hide L.Geometry;
  }

  lemma ProceedKeeps(x: State)
    requires Inv(x) && Enabled(x, Proceed)
    ensures Inv(Apply(x, Proceed))
  {
    hide L.Good, L.Shaped, C.Sound, L.Advanced;
    var y := Apply(x, Proceed);
    AdvanceGood(x.s);
    ProceedStep(x.s);
    if x.s.pc.Install? {
      C.ClearSound(x.c);
      C.SoundShape(y.c);
    }
    forall e: nat ensures BlockOk(y, e) {
      At(x, e);
    }
  }

  lemma LoadStep(s: L.State)
    requires L.Shaped(s) && s.pc == L.ReadHead
    ensures var t := L.Advanced(s); t == s.(lh := L.Decode(s.disk[s.start]), pc := L.Reinstall(0))
  {
    hide L.Geometry;
  }

  /** read_head finds in the buffer what is on the disk, and that is the list the log goes on with. */
  lemma LoadHeadKeeps(x: State, h: nat, b: nat)
    requires Inv(x) && Enabled(x, LoadHead(h, b))
    ensures L.WellFormedHead(x.c.data[b]) && Apply(x, LoadHead(h, b)).s.lh == L.Decode(x.c.data[b])
    ensures Inv(Apply(x, LoadHead(h, b)))
  {
    hide L.Good, C.Sound, L.Advanced;
    var y := Apply(x, LoadHead(h, b));
    AdvanceGood(x.s);
    LoadStep(x.s);
    Latest(x.c, h, b);
    At(x, x.s.start);
    forall e: nat ensures BlockOk(y, e) {
      At(x, e);
    }
  }

  lemma BootSound(disk: map<C.Key, C.Block>)
    ensures C.Sound(Booted(disk))
  {
    var c := Booted(disk);
    forall b: nat | b < C.NBUF ensures C.BufOk(c, b) {
      assert C.Users(c.refs, b) == {};
    }
    forall k | k in c.store ensures C.DiskOk(c, k) {
    }
  }

  lemma CrashKeeps(x: State)
    requires Inv(x)
    ensures Inv(Apply(x, Crash))
  {
    hide L.Good, L.Shaped, C.Sound;
    var y := Apply(x, Crash);
    L.StepKeepsGood(x.s, L.Crash);
    GoodShaped(y.s);
    BootSound(x.c.disk);
    forall e: nat ensures BlockOk(y, e) {
      At(x, e);
    }
  }

  /** Every step of every process, of commit and of recovery, and a crash, keeps cache and log joined. */
  lemma StepKeeps(x: State, a: Action)
    requires Inv(x) && Enabled(x, a)
    ensures Inv(Apply(x, a))
  {
    hide Inv, Enabled, Apply;
    match a
    case Use(m) => UseKeeps(x, m);
    case Begin(id) => BeginKeeps(x, id);
    case Change(h, b, i, v) => ChangeKeeps(x, h, b, i, v);
    case Record(h, b, i) => RecordKeeps(x, h, b, i);
    case End(i) => EndKeeps(x, i);
    case Copy(h, b, g, e) => CopyKeeps(x, h, b, g, e);
    case FillHead(h, b) => FillHeadKeeps(x, h, b);
    case Flush(h, b) => FlushKeeps(x, h, b);
    case Unpin(h, b) => UnpinKeeps(x, h, b);
    case Proceed => ProceedKeeps(x);
    case LoadHead(h, b) => LoadHeadKeeps(x, h, b);
    case Crash => CrashKeeps(x);
  }

  // ---------------------------------------------------------------- whole runs

  /** The blocks of the log's device. */
  function DiskOf(x: State): L.Disk {
    map k | k in x.c.disk && k.dev == x.dev :: k.blockno := x.c.disk[k]
  }

  /** The first boot: a formatted disk, and the cache as binit leaves it. */
  ghost predicate Init(x: State) {
    x.dev != 0 && L.Initial(x.s) && x.c == Booted(x.c.disk) && x.work == Idle && DiskOf(x) == x.s.disk
  }

  ghost predicate Next(x: State, y: State) {
    exists a :: L.Shaped(x.s) && Enabled(x, a) && y == Apply(x, a)
  }

  /** xs is a run from the first boot. */
  ghost predicate Behavior(xs: seq<State>) {
    Run(Next, xs) && Init(xs[0])
  }

  lemma InDisk(x: State, b: nat)
    ensures b in DiskOf(x) <==> K(x, b) in x.c.disk
    ensures b in DiskOf(x) ==> DiskOf(x)[b] == x.c.disk[K(x, b)]
  {
    if K(x, b) in x.c.disk {
      assert K(x, b).blockno == b;
    }
  }

  lemma InitInv(x: State)
    requires Init(x)
    ensures Inv(x)
  {
    hide L.Good, C.Sound, L.Shaped, DiskOf;
    InitialFacts(x.s);
    BootSound(x.c.disk);
    forall b: nat ensures BlockOk(x, b) {
      InDisk(x, b);
    }
  }

  lemma InitialFacts(s: L.State)
    requires L.Initial(s)
    ensures L.Good(s) && L.Shaped(s) && s.mem == map[] && s.lh == [] && s.pc == L.ReadHead
  {
    L.InitialGood(s);
  }

  lemma RunKeeps(xs: seq<State>, k: nat)
    requires Behavior(xs) && k < |xs|
    ensures Inv(xs[k])
  {
    hide Inv, Enabled, Apply, Init;
    InitInv(xs[0]);
    forall x, y | Inv(x) && Next(x, y) ensures Inv(y) {
      var a :| L.Shaped(x.s) && Enabled(x, a) && y == Apply(x, a);
      StepKeeps(x, a);
    }
    Always(Next, Inv, xs, k);
  }

  /** The disk below the cache is the log's disk. */
  lemma SameDisk(x: State)
    requires Inv(x)
    ensures DiskOf(x) == x.s.disk
  {
    hide L.Good, C.Sound, L.Shaped, DiskOf;
    forall b ensures b in DiskOf(x) <==> b in x.s.disk {
      InDisk(x, b);
      At(x, b);
    }
    forall b | b in DiskOf(x) ensures DiskOf(x)[b] == x.s.disk[b] {
      InDisk(x, b);
      At(x, b);
    }
  }

  /**
   Crash atomicity of the cached file system. In every run, however processes read, change,
   log, evict and release buffers, and wherever commits and recoveries were interrupted,
   recovering the disk that is below the cache gives exactly the effect of a prefix of what
   clients did, in which every operation that began has ended.
   */
  lemma CachedCrashAtomicity(xs: seq<State>, k: nat)
    requires Behavior(xs) && k < |xs|
    ensures var x, s := xs[k], xs[k].s;
      && L.Mountable(s.start, DiskOf(x)) && s.durable <= |s.events|
      && L.HomeOf(s.start, L.Recover(s.start, DiskOf(x))) == L.Effect(s.origin, s.events[..s.durable])
      && L.Legal(s.events) && L.Open(s.events[..s.durable]) == {}
  {
    RunKeeps(xs, k);
    hide L.Good, C.Sound, L.Shaped, DiskOf, L.Mountable, L.Recover, L.HomeOf, L.Effect, L.Legal, L.Open, BlockOk;
    SameDisk(xs[k]);
    L.GoodRecovers(xs[k].s);
  }

  lemma MemIsEffect(s: L.State)
    requires L.Good(s) && !Recovering(s.pc)
    ensures s.mem == L.Effect(s.origin, s.events)
  {
    hide L.Effect, L.Covered, L.Copied, L.Installed, L.Space, L.History, L.Geometry, L.Safe;
  }

  /**
   In every run, after recovery, whoever has a home block's buffer locked and filled sees the
   effect of everything clients have done so far, whatever was evicted and read again since.
   */
  lemma HolderSeesAll(xs: seq<State>, k: nat, h: nat, b: nat)
    requires Behavior(xs) && k < |xs| && !Recovering(xs[k].s.pc) && C.Ready(xs[k].c, h, b)
    requires xs[k].c.key[b].dev == xs[k].dev && L.IsHome(xs[k].s.start, xs[k].c.key[b].blockno)
    ensures var x, n := xs[k], xs[k].c.key[b].blockno;
      n in L.Effect(x.s.origin, x.s.events) && x.c.data[b] == L.Effect(x.s.origin, x.s.events)[n]
  {
    RunKeeps(xs, k);
    hide L.Good, C.Sound, L.Effect;
    var x, n := xs[k], xs[k].c.key[b].blockno;
    Latest(x.c, h, b);
    At(x, n);
    MemIsEffect(x.s);
    HomeInMem(x.s, n);
  }

  lemma HomeInMem(s: L.State, b: nat)
    requires L.Good(s) && !Recovering(s.pc) && b in s.disk && L.IsHome(s.start, b)
    ensures b in s.mem
  {
    hide L.Effect, L.Covered, L.Copied, L.Installed, L.Space, L.History, L.Safe;
  }

  /** In every run, what a state has promised to survive, later states promise too. */
  lemma {:induction false} PromisesKept(xs: seq<State>, j: nat, k: nat)
    requires Behavior(xs) && j <= k < |xs|
    ensures L.Keeps(xs[j].s, xs[k].s)
    decreases k
  {
    hide Inv, Enabled, Apply, Init, L.Keeps;
    if j == k {
      RunKeeps(xs, j);
      KeepsSelf(xs[j]);
    } else {
      PromisesKept(xs, j, k - 1);
      RunKeeps(xs, k - 1);
      var x, y := xs[k - 1], xs[k];
      assert Next(x, y);
      var a :| L.Shaped(x.s) && Enabled(x, a) && y == Apply(x, a);
      StepPromise(x, a);
      L.KeepsTransitive(xs[j].s, x.s, y.s);
    }
  }

  lemma KeepsSelf(x: State)
    requires Inv(x)
    ensures L.Keeps(x.s, x.s)
  {
    hide L.Good;
    L.GoodKeeps(x.s);
  }

  /** Each step is a step of the log, or none. */
  lemma StepRefines(x: State, a: Action)
    requires L.Shaped(x.s) && Enabled(x, a)
    ensures Apply(x, a).s == x.s || exists la :: L.Moves(x.s, la, Apply(x, a).s)
  {
    hide L.Shaped;
    match a
    case Begin(id) => assert L.Moves(x.s, L.Begin(id), Apply(x, a).s);
    case Change(_, b, i, v) => assert L.Moves(x.s, L.Modify(i, x.c.key[b].blockno, v), Apply(x, a).s);
    case Record(_, b, i) => assert L.Moves(x.s, L.LogWrite(i, x.c.key[b].blockno), Apply(x, a).s);
    case End(i) => assert L.Moves(x.s, L.End(i), Apply(x, a).s);
    case Flush(_, _) => assert L.Moves(x.s, L.Advance, Apply(x, a).s);
    case Proceed => assert L.Moves(x.s, L.Advance, Apply(x, a).s);
    case LoadHead(_, _) => assert L.Moves(x.s, L.Advance, Apply(x, a).s);
    case Crash => assert L.Moves(x.s, L.Crash, Apply(x, a).s);
    case _ =>
  }

  lemma StepPromise(x: State, a: Action)
    requires Inv(x) && L.Shaped(x.s) && Enabled(x, a)
    ensures L.Keeps(x.s, Apply(x, a).s)
  {
    hide Inv, Enabled, Apply, L.Shaped, L.Keeps;
    StepRefines(x, a);
    KeepsSelf(x);
    if la :| L.Moves(x.s, la, Apply(x, a).s) {
      L.StepKeepsPromise(x.s, la);
    }
  }
}
