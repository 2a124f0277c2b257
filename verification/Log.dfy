/**
 The write-ahead log of kernel/log.c as a transition system, with a crash possible
 between any two block writes.

 The disk maps block numbers to blocks. The log occupies `start` (the header) and the
 LOGBLOCKS blocks behind it; every other block is a home block.
 */
module Log {

  const MAXOPBLOCKS: nat := 10
  const LOGBLOCKS: nat := 3 * MAXOPBLOCKS
  const WORDS: nat := 256            // 32-bit words in a block

  type Block = seq<int>
  type Disk = map<nat, Block>

  predicate IsHome(start: nat, b: nat) {
    b < start || start + LOGBLOCKS < b
  }

  // ---------------------------------------------------------------- the header block

  /** write_head: the count and that many block numbers; the words behind them stay as they were. */
  function Encode(lh: seq<nat>, was: Block): Block
    requires |lh| <= LOGBLOCKS && |was| == WORDS
  {
    [|lh|] + seq(|lh|, i requires 0 <= i < |lh| => lh[i] as int) + was[|lh| + 1..]
  }

  predicate WellFormedHead(b: Block) {
    |b| == WORDS && 0 <= b[0] <= LOGBLOCKS && forall i :: 1 <= i <= b[0] ==> b[i] >= 0
  }

  /** read_head */
  function Decode(b: Block): (lh: seq<nat>)
    requires WellFormedHead(b)
    ensures |lh| == b[0]
  {
    seq(b[0], i requires 0 <= i < b[0] => b[i + 1] as nat)
  }

  lemma HeaderRoundTrip(lh: seq<nat>, was: Block)
    requires |lh| <= LOGBLOCKS && |was| == WORDS
    ensures WellFormedHead(Encode(lh, was)) && Decode(Encode(lh, was)) == lh
  {
    var b := Encode(lh, was);
    forall i | 1 <= i <= |lh| ensures b[i] == lh[i - 1] {
    }
    assert |Decode(b)| == |lh|;
  }

  // ---------------------------------------------------------------- operations and their effect

  /** What clients do, in the order in which it happens. */
  datatype Event = Began(id: nat) | Wrote(id: nat, b: nat, v: Block) | Ended(id: nat)

  /** The home blocks after the writes in ev. */
  ghost function Effect(home: Disk, ev: seq<Event>): (d: Disk)
    ensures home.Keys <= d.Keys
  {
    if ev == [] then home
    else
      var d := Effect(home, ev[..|ev| - 1]);
      var e := ev[|ev| - 1];
      if e.Wrote? then d[e.b := e.v] else d
  }

  /** Operations that have begun and not ended. */
  ghost function Open(ev: seq<Event>): set<nat> {
    if ev == [] then {}
    else
      OpenAfter(Open(ev[..|ev| - 1]), ev[|ev| - 1])
  }

  function OpenAfter(open: set<nat>, e: Event): set<nat> {
    match e
    case Began(id) => open + {id}
    case Wrote(_, _, _) => open
    case Ended(id) => open - {id}
  }

  /** An operation writes only between its own beginning and end, and begins once. */
  ghost predicate Legal(ev: seq<Event>) {
    forall i :: 0 <= i < |ev| ==> LegalNext(Open(ev[..i]), ev[..i], ev[i])
  }

  // ---------------------------------------------------------------- states

  /** An operation in progress: how many blocks it has added to the log, and what it changed but has not logged. */
  datatype Op = Op(id: nat, added: nat, unlogged: set<nat>)

  datatype Pc =
    | Running                    // begin_op, log_write and end_op are possible
    | CopyToLog(tail: nat)       // write_log
    | WriteHead                  // the real commit
    | Install(tail: nat)         // install_trans(0)
    | ClearHead
    | Unlock                     // committing = 0
    | ReadHead                   // after a crash
    | Reinstall(tail: nat)       // install_trans(1)
    | Reclear

  /**
   disk survives a crash; mem (what bread returns for a home block), lh and ops do not.
   events is what clients have done that a crash now could still save, durable how much
   of it is certain to survive.
   */
  datatype State = State(start: nat, disk: Disk, mem: Disk, lh: seq<nat>, ops: seq<Op>, pc: Pc,
                         origin: Disk, events: seq<Event>, durable: nat)

  datatype Action =
    | Begin(id: nat)
    | Modify(i: nat, b: nat, v: Block)
    | LogWrite(i: nat, b: nat)
    | End(i: nat)
    | Advance                    // the next step of commit or of recovery
    | Crash

  function HomeOf(start: nat, disk: Disk): Disk {
    map b | b in disk && IsHome(start, b) :: disk[b]
  }

  /** begin_op's admission test. */
  predicate RoomFor(s: State) {
    |s.lh| + (|s.ops| + 1) * MAXOPBLOCKS <= LOGBLOCKS
  }

  predicate Enabled(s: State, a: Action) {
    match a
    case Begin(id) => s.pc == Running && RoomFor(s) && forall k :: 0 <= k < |s.events| ==> s.events[k].id != id
    case Modify(i, b, v) => s.pc == Running && i < |s.ops| && b in s.mem && |v| == WORDS
    case LogWrite(i, b) => s.pc == Running && i < |s.ops| && b in s.mem && s.ops[i].added < MAXOPBLOCKS
    case End(i) => s.pc == Running && i < |s.ops| && s.ops[i].unlogged == {}
    case Advance => s.pc != Running
    case Crash => true
  }

  /** log_write with its absorption test. */
  function Logged(s: State, i: nat, b: nat): State
    requires i < |s.ops|
  {
    var op := s.ops[i].(unlogged := s.ops[i].unlogged - {b});
    if b in s.lh then s.(ops := s.ops[i := op])
    else s.(ops := s.ops[i := op.(added := op.added + 1)], lh := s.lh + [b])
  }

  function Ending(s: State, i: nat): State
    requires i < |s.ops|
  {
    var ops := s.ops[..i] + s.ops[i + 1..];
    s.(ops := ops, events := s.events + [Ended(s.ops[i].id)],
       pc := if ops != [] then Running else if s.lh == [] then Unlock else CopyToLog(0))
  }

  function Crashed(s: State): State
    requires s.durable <= |s.events|
  {
    s.(mem := map[], lh := [], ops := [], pc := ReadHead, events := s.events[..s.durable])
  }

  /** Home blocks are the keys of origin; together with the log region they make up the disk. */
  ghost predicate Geometry(start: nat, origin: Disk, disk: Disk) {
    && (forall b :: b in origin <==> b in disk && IsHome(start, b))
    && (forall k :: start <= k <= start + LOGBLOCKS ==> k in disk)
    && (forall b :: b in disk ==> |disk[b]| == WORDS)
  }

  /** The blocks that a step reads are there and have the right shape. */
  ghost predicate Shaped(s: State) {
    && s.durable <= |s.events| && |s.lh| <= LOGBLOCKS
    && Geometry(s.start, s.origin, s.disk)
    && s.start in s.disk && WellFormedHead(s.disk[s.start])
    && (s.pc.CopyToLog? ==> ListedIn(s.lh, s.mem))
  }

  predicate ListedIn(lh: seq<nat>, mem: Disk) {
    forall k :: 0 <= k < |lh| ==> lh[k] in mem
  }

  /** install_trans copies the log block into the block's buffer and writes the buffer. */
  ghost function CopiedHome(s: State, tail: nat): State
    requires tail < |s.lh| && s.start + 1 + tail in s.disk
  {
    var b, v := s.lh[tail], s.disk[s.start + 1 + tail];
    s.(mem := s.mem[b := v], disk := s.disk[b := v])
  }

  /** One block write, or the bookkeeping between two of them. */
  ghost function Advanced(s: State): State
    requires Shaped(s)
  {
    match s.pc
    case Running => s
    case CopyToLog(tail) =>
      if tail < |s.lh| then s.(disk := s.disk[s.start + 1 + tail := s.mem[s.lh[tail]]], pc := CopyToLog(tail + 1))
      else s.(pc := WriteHead)
    case WriteHead =>
      s.(disk := s.disk[s.start := Encode(s.lh, s.disk[s.start])], pc := Install(0), durable := |s.events|)
    case Install(tail) =>
      if tail < |s.lh| then CopiedHome(s, tail).(pc := Install(tail + 1))
      else s.(lh := [], pc := ClearHead)
    case ClearHead =>
      s.(disk := s.disk[s.start := Encode(s.lh, s.disk[s.start])], pc := Unlock)
    case Unlock => s.(pc := Running)
    case ReadHead => s.(lh := Decode(s.disk[s.start]), pc := Reinstall(0))
    case Reinstall(tail) =>
      if tail < |s.lh| then CopiedHome(s, tail).(pc := Reinstall(tail + 1))
      else s.(lh := [], pc := Reclear)
    case Reclear =>
      s.(disk := s.disk[s.start := Encode(s.lh, s.disk[s.start])], mem := HomeOf(s.start, s.disk) + s.mem,
        pc := Running)
  }

  ghost function Apply(s: State, a: Action): State
    requires Shaped(s) && Enabled(s, a)
  {
    match a
    case Begin(id) => s.(ops := s.ops + [Op(id, 0, {})], events := s.events + [Began(id)])
    case Modify(i, b, v) =>
      s.(mem := s.mem[b := v], ops := s.ops[i := s.ops[i].(unlogged := s.ops[i].unlogged + {b})],
         events := s.events + [Wrote(s.ops[i].id, b, v)])
    case LogWrite(i, b) => Logged(s, i, b)
    case End(i) => Ending(s, i)
    case Advance => Advanced(s)
    case Crash => Crashed(s)
  }

  // ---------------------------------------------------------------- the invariant

  predicate Distinct(lh: seq<nat>) {
    forall j, k :: 0 <= j < k < |lh| ==> lh[j] != lh[k]
  }

  /** What a crash right now must restore. */
  ghost function Promise(s: State): Disk
    requires s.durable <= |s.events|
  {
    Effect(s.origin, s.events[..s.durable])
  }

  ghost predicate HomeList(origin: Disk, lh: seq<nat>) {
    |lh| <= LOGBLOCKS && Distinct(lh) && forall k :: 0 <= k < |lh| ==> lh[k] in origin
  }

  /** The log holds the promised contents p of the blocks in hd, and the other home blocks are in place. */
  ghost predicate Safe(start: nat, origin: Disk, disk: Disk, hd: seq<nat>, p: Disk) {
    && p.Keys == origin.Keys && HomeList(origin, hd)
    && (forall k :: 0 <= k < |hd| ==> start + 1 + k in disk && disk[start + 1 + k] == p[hd[k]])
    && (forall b :: b in origin && b !in hd ==> b in disk && disk[b] == p[b])
  }

  /** The first t named blocks are in place as well. */
  ghost predicate Installed(disk: Disk, hd: seq<nat>, t: nat, p: Disk) {
    t <= |hd| && forall k :: 0 <= k < t ==> hd[k] in disk && hd[k] in p && disk[hd[k]] == p[hd[k]]
  }

  predicate Agree(b: nat, mem: Disk, disk: Disk) {
    b in mem && b in disk && mem[b] == disk[b]
  }

  /** Home blocks in memory are as on the disk. */
  ghost predicate Clean(origin: Disk, mem: Disk, disk: Disk) {
    forall b :: b in mem ==> b in origin && Agree(b, mem, disk)
  }

  /** A block that differs from its disk copy is logged, or about to be. */
  ghost predicate Covered(origin: Disk, mem: Disk, disk: Disk, lh: seq<nat>, ops: seq<Op>) {
    forall b :: b in origin ==>
      b in lh || (exists i :: 0 <= i < |ops| && b in ops[i].unlogged) || Agree(b, mem, disk)
  }

  /** write_log has copied the first t logged blocks. */
  ghost predicate Copied(start: nat, mem: Disk, disk: Disk, lh: seq<nat>, t: nat) {
    t <= |lh| && forall k :: 0 <= k < t ==>
      start + 1 + k in disk && lh[k] in mem && disk[start + 1 + k] == mem[lh[k]]
  }

  /** Memory holds the effect of everything clients have done. */
  ghost predicate InMemory(origin: Disk, mem: Disk, lh: seq<nat>, ev: seq<Event>) {
    && mem.Keys == origin.Keys && mem == Effect(origin, ev)
    && (forall b :: b in mem ==> |mem[b]| == WORDS)
    && HomeList(origin, lh)
  }

  // ---------------------------------------------------------------- the disk steps, on the disk alone

  lemma CopyBlock(start: nat, origin: Disk, disk: Disk, mem: Disk, lh: seq<nat>, ops: seq<Op>, p: Disk, t: nat)
    requires Geometry(start, origin, disk) && Safe(start, origin, disk, [], p) && HomeList(origin, lh)
    requires mem.Keys == origin.Keys && (forall b :: b in mem ==> |mem[b]| == WORDS)
    requires Copied(start, mem, disk, lh, t) && t < |lh| && Covered(origin, mem, disk, lh, ops)
    ensures var disk' := disk[start + 1 + t := mem[lh[t]]];
      && Geometry(start, origin, disk') && Safe(start, origin, disk', [], p)
      && Copied(start, mem, disk', lh, t + 1) && Covered(origin, mem, disk', lh, ops)
      && start in disk && disk'[start] == disk[start]
  {
    var disk' := disk[start + 1 + t := mem[lh[t]]];
    forall b | b in origin ensures disk'[b] == disk[b] {
    }
    forall b | b in origin
      ensures b in lh || (exists i :: 0 <= i < |ops| && b in ops[i].unlogged) || Agree(b, mem, disk')
    {
      assert b in lh || (exists i :: 0 <= i < |ops| && b in ops[i].unlogged) || Agree(b, mem, disk);
    }
  }

  /** The header write turns what memory holds into what a crash restores. */
  lemma CommitBlocks(start: nat, origin: Disk, disk: Disk, mem: Disk, lh: seq<nat>, head: Block)
    requires Geometry(start, origin, disk) && HomeList(origin, lh) && |head| == WORDS
    requires mem.Keys == origin.Keys && Copied(start, mem, disk, lh, |lh|) && Covered(origin, mem, disk, lh, [])
    ensures Geometry(start, origin, disk[start := head]) && Safe(start, origin, disk[start := head], lh, mem)
  {
    forall b | b in origin && b !in lh ensures disk[b] == mem[b] {
      assert Agree(b, mem, disk);
    }
  }

  lemma InstallBlock(start: nat, origin: Disk, disk: Disk, hd: seq<nat>, p: Disk, t: nat)
    requires Geometry(start, origin, disk) && Safe(start, origin, disk, hd, p) && Installed(disk, hd, t, p) && t < |hd|
    ensures var disk' := disk[hd[t] := disk[start + 1 + t]];
      && hd[t] in origin && start + 1 + t in disk && disk'[start] == disk[start]
      && Geometry(start, origin, disk') && Safe(start, origin, disk', hd, p) && Installed(disk', hd, t + 1, p)
  {
    var disk' := disk[hd[t] := disk[start + 1 + t]];
    assert hd[t] in origin && IsHome(start, hd[t]);
    forall k | 0 <= k < |hd| ensures start + 1 + k in disk' && disk'[start + 1 + k] == p[hd[k]] {
      assert start + 1 + k in disk;
    }
    forall k | 0 <= k < t + 1 ensures hd[k] in disk' && hd[k] in p && disk'[hd[k]] == p[hd[k]] {
      assert k < t ==> hd[k] != hd[t];
    }
  }

  /** Once everything is installed the header may go, and the disk alone holds what was promised. */
  lemma ClearBlocks(start: nat, origin: Disk, disk: Disk, hd: seq<nat>, p: Disk, head: Block)
    requires Geometry(start, origin, disk) && Safe(start, origin, disk, hd, p)
    requires Installed(disk, hd, |hd|, p) && |head| == WORDS
    ensures Geometry(start, origin, disk[start := head]) && Safe(start, origin, disk[start := head], [], p)
    ensures p.Keys == origin.Keys && forall b :: b in origin ==> Agree(b, p, disk)
  {
    forall b | b in origin ensures Agree(b, p, disk) {
      if b in hd {
        var k :| 0 <= k < |hd| && hd[k] == b;
      }
    }
  }

  // ---------------------------------------------------------------- the invariant

  ghost predicate Steady(s: State) {
    InMemory(s.origin, s.mem, s.lh, s.events) && Covered(s.origin, s.mem, s.disk, s.lh, s.ops)
  }

  /** hd is the header on disk, p what a crash must restore. */
  ghost predicate AtPc(s: State, hd: seq<nat>, p: Disk) {
    && (s.pc != Running ==> s.ops == [])
    && match s.pc
       case Running => hd == [] && Steady(s)
       case CopyToLog(t) => hd == [] && Steady(s) && t <= |s.lh| && Copied(s.start, s.mem, s.disk, s.lh, t)
       case WriteHead => hd == [] && Steady(s) && Copied(s.start, s.mem, s.disk, s.lh, |s.lh|)
       case Install(t) => hd == s.lh && InMemory(s.origin, s.mem, s.lh, s.events) && Installed(s.disk, hd, t, p)
       case ClearHead => s.lh == [] && InMemory(s.origin, s.mem, [], s.events) && Installed(s.disk, hd, |hd|, p)
       case Unlock => hd == [] && Steady(s) && s.lh == []
       case ReadHead => s.lh == [] && s.mem == map[]
       case Reinstall(t) => hd == s.lh && Installed(s.disk, hd, t, p) && Clean(s.origin, s.mem, s.disk)
       case Reclear => s.lh == [] && Installed(s.disk, hd, |hd|, p) && Clean(s.origin, s.mem, s.disk)
  }

  /** Between the header write and the end of the installation, and in recovery, nothing is at stake but the promise. */
  predicate Settled(pc: Pc) {
    pc.Install? || pc == ClearHead || pc == ReadHead || pc.Reinstall? || pc == Reclear
  }

  ghost predicate Inv(s: State) {
    && Shaped(s)
    && (Settled(s.pc) ==> s.durable == |s.events|)
    && Safe(s.start, s.origin, s.disk, Decode(s.disk[s.start]), Promise(s))
    && AtPc(s, Decode(s.disk[s.start]), Promise(s))
  }

  lemma CopyStep(s: State)
    requires Inv(s) && s.pc.CopyToLog?
    ensures Inv(Advanced(s)) && Promise(Advanced(s)) == Promise(s)
  {
    hide Safe, Geometry, Covered, Copied, InMemory, Advanced, WellFormedHead, Decode, HomeList, ListedIn, Promise;
    AdvancedCopy(s);
    SamePromise(s, Advanced(s));
    if s.pc.tail < |s.lh| {
      InMemoryFacts(s.origin, s.mem, s.lh, s.events);
      CopyBlock(s.start, s.origin, s.disk, s.mem, s.lh, s.ops, Promise(s), s.pc.tail);
    }
  }

  lemma SamePromise(s: State, t: State)
    requires s.durable <= |s.events| && t.origin == s.origin && t.events == s.events && t.durable == s.durable
    ensures Promise(t) == Promise(s)
  {
  }

  lemma AdvancedCopy(s: State)
    requires Shaped(s) && s.pc.CopyToLog?
    ensures var t := s.pc.tail;
      if t >= |s.lh| then Advanced(s) == s.(pc := WriteHead)
      else s.lh[t] in s.mem && Advanced(s) == s.(disk := s.disk[s.start + 1 + t := s.mem[s.lh[t]]],
        pc := CopyToLog(t + 1))
  {
    hide Geometry;
  }

  lemma AdvancedInstall(s: State)
    requires Shaped(s) && (s.pc.Install? || s.pc.Reinstall?)
    ensures var t := s.pc.tail;
      if t >= |s.lh| then Advanced(s) == s.(lh := [], pc := if s.pc.Install? then ClearHead else Reclear)
      else
        && s.start + 1 + t in s.disk
        && Advanced(s) == CopiedHome(s, t).(pc := if s.pc.Install? then Install(t + 1) else Reinstall(t + 1))
  {
  }

  lemma InMemoryFacts(origin: Disk, mem: Disk, lh: seq<nat>, ev: seq<Event>)
    requires InMemory(origin, mem, lh, ev)
    ensures mem.Keys == origin.Keys && (forall b :: b in mem ==> |mem[b]| == WORDS) && HomeList(origin, lh)
    ensures mem == Effect(origin, ev) && forall k :: 0 <= k < |lh| ==> lh[k] in mem
  {
  }

  lemma CommitPoint(s: State)
    requires Inv(s) && s.pc == WriteHead
    ensures Inv(Advanced(s)) && Promise(Advanced(s)) == Effect(s.origin, s.events)
  {
    hide Safe, Geometry, Covered, Copied, Effect;
    var head := Encode(s.lh, s.disk[s.start]);
    HeaderRoundTrip(s.lh, s.disk[s.start]);
    assert s.events[..|s.events|] == s.events;
    CommitBlocks(s.start, s.origin, s.disk, s.mem, s.lh, head);
  }

  /** When install_trans comes to a block after a commit, its buffer already has what the log has. */
  lemma InstallFinds(s: State)
    requires Inv(s) && s.pc.Install? && s.pc.tail < |s.lh|
    ensures var t := s.pc.tail;
      s.start + 1 + t in s.disk && s.lh[t] in s.mem && s.mem[s.lh[t]] == s.disk[s.start + 1 + t]
    ensures CopiedHome(s, s.pc.tail).mem == s.mem
  {
    hide Geometry, Effect, Installed, Safe, InMemory;
    InMemoryFacts(s.origin, s.mem, s.lh, s.events);
    assert s.events[..|s.events|] == s.events;
    var b := s.lh[s.pc.tail];
    SafeBlock(s.start, s.origin, s.disk, s.lh, s.mem, s.pc.tail);
    assert s.mem[b := s.mem[b]] == s.mem;
  }

  lemma SafeBlock(start: nat, origin: Disk, disk: Disk, hd: seq<nat>, p: Disk, k: nat)
    requires Safe(start, origin, disk, hd, p) && k < |hd|
    ensures start + 1 + k in disk && hd[k] in p && disk[start + 1 + k] == p[hd[k]]
  {
  }

  /** In recovery the buffer is left as the disk has it. */
  lemma CleanCopy(origin: Disk, mem: Disk, disk: Disk, b: nat, v: Block)
    requires Clean(origin, mem, disk) && b in origin
    ensures Clean(origin, mem[b := v], disk[b := v])
  {
    forall c | c in mem[b := v] ensures c in origin && Agree(c, mem[b := v], disk[b := v]) {
      assert c != b ==> Agree(c, mem, disk);
    }
  }

  lemma InstallStep(s: State)
    requires Inv(s) && (s.pc.Install? || s.pc.Reinstall?)
    ensures Inv(Advanced(s)) && Promise(Advanced(s)) == Promise(s)
    ensures s.pc.Install? ==> Advanced(s).mem == s.mem
  {
    hide Safe, Geometry, Covered, Copied, Effect, InMemory, Clean, Advanced, WellFormedHead, Decode, HomeList, ListedIn;
    AdvancedInstall(s);
    if s.pc.tail < |s.lh| {
      InstallBlock(s.start, s.origin, s.disk, s.lh, Promise(s), s.pc.tail);
      if s.pc.Install? {
        InstallFinds(s);
      } else {
        CleanCopy(s.origin, s.mem, s.disk, s.lh[s.pc.tail], s.disk[s.start + 1 + s.pc.tail]);
      }
    } else if s.pc.Install? {
      FewerListed(s.origin, s.mem, s.lh, s.events);
    }
  }

  lemma FewerListed(origin: Disk, mem: Disk, lh: seq<nat>, ev: seq<Event>)
    requires InMemory(origin, mem, lh, ev)
    ensures InMemory(origin, mem, [], ev)
  {
  }

  lemma ClearStep(s: State)
    requires Inv(s) && (s.pc == ClearHead || s.pc == Reclear)
    ensures Inv(Advanced(s)) && Promise(Advanced(s)) == Promise(s)
  {
    hide Safe, Geometry, Effect, Installed, Copied;
    var p, head := Promise(s), Encode([], s.disk[s.start]);
    HeaderRoundTrip([], s.disk[s.start]);
    assert s.events[..|s.events|] == s.events;
    ClearBlocks(s.start, s.origin, s.disk, Decode(s.disk[s.start]), p, head);
    var t := Advanced(s);
    if s.pc == Reclear {
      HomeMatches(s.start, s.origin, s.disk, p);
      CleanHome(s.start, s.origin, s.mem, s.disk);
    }
    OnDisk(s.start, s.origin, s.disk, t.mem, head);
  }

  lemma HomeMatches(start: nat, origin: Disk, disk: Disk, p: Disk)
    requires Geometry(start, origin, disk) && p.Keys == origin.Keys && forall b :: b in origin ==> Agree(b, p, disk)
    ensures HomeOf(start, disk) == p && forall b :: b in p ==> |p[b]| == WORDS
  {
    forall b | b in p ensures p[b] == disk[b] {
      assert Agree(b, p, disk);
    }
  }

  /** What recovery left in buffers is what the disk has. */
  lemma CleanHome(start: nat, origin: Disk, mem: Disk, disk: Disk)
    requires Geometry(start, origin, disk) && Clean(origin, mem, disk)
    ensures HomeOf(start, disk) + mem == HomeOf(start, disk)
  {
    forall b | b in mem ensures b in HomeOf(start, disk) && HomeOf(start, disk)[b] == mem[b] {
      assert Agree(b, mem, disk);
    }
  }

  lemma OnDisk(start: nat, origin: Disk, disk: Disk, mem: Disk, head: Block)
    requires Geometry(start, origin, disk) && forall b :: b in origin ==> Agree(b, mem, disk)
    ensures Covered(origin, mem, disk[start := head], [], [])
  {
    forall b | b in origin ensures Agree(b, mem, disk[start := head]) {
      assert Agree(b, mem, disk);
    }
  }

  lemma OtherStep(s: State)
    requires Inv(s) && (s.pc == Unlock || s.pc == ReadHead || s.pc == Running)
    ensures Inv(Advanced(s)) && Promise(Advanced(s)) == Promise(s)
  {
    hide Effect, Geometry, Covered, InMemory, Copied;
  }

  lemma CrashStep(s: State)
    requires Inv(s)
    ensures Inv(Crashed(s)) && Promise(Crashed(s)) == Promise(s)
  {
    hide Effect, Geometry, Safe, Covered, InMemory, Copied, Installed;
    assert s.events[..s.durable][..s.durable] == s.events[..s.durable];
  }

  // ---------------------------------------------------------------- the client steps

  lemma EffectExtends(home: Disk, ev: seq<Event>, e: Event)
    ensures Effect(home, ev + [e]) == if e.Wrote? then Effect(home, ev)[e.b := e.v] else Effect(home, ev)
  {
    assert (ev + [e])[..|ev|] == ev;
  }

  lemma OpenExtends(ev: seq<Event>, e: Event)
    ensures Open(ev + [e]) == OpenAfter(Open(ev), e)
  {
    assert (ev + [e])[..|ev|] == ev;
  }

  /** Appending to the record does not touch what was promised. */
  lemma PromiseExtends(s: State, e: Event)
    requires s.durable <= |s.events|
    ensures (s.events + [e])[..s.durable] == s.events[..s.durable]
  {
  }

  /** Operations may come, and may add to what they changed, without uncovering a block. */
  lemma CoveredMore(origin: Disk, mem: Disk, disk: Disk, lh: seq<nat>, ops: seq<Op>, ops': seq<Op>)
    requires Covered(origin, mem, disk, lh, ops) && |ops| <= |ops'|
    requires forall i :: 0 <= i < |ops| ==> ops[i].unlogged <= ops'[i].unlogged
    ensures Covered(origin, mem, disk, lh, ops')
  {
    forall b | b in origin
      ensures b in lh || (exists i :: 0 <= i < |ops'| && b in ops'[i].unlogged) || Agree(b, mem, disk)
    {
      if i :| 0 <= i < |ops| && b in ops[i].unlogged {
        assert b in ops'[i].unlogged;
      }
    }
  }

  lemma CoveredModify(origin: Disk, mem: Disk, disk: Disk, lh: seq<nat>, ops: seq<Op>, i: nat, b: nat, v: Block)
    requires Covered(origin, mem, disk, lh, ops) && i < |ops| && b in ops[i].unlogged
    ensures Covered(origin, mem[b := v], disk, lh, ops)
  {
    forall c | c in origin
      ensures c in lh || (exists j :: 0 <= j < |ops| && c in ops[j].unlogged) || Agree(c, mem[b := v], disk)
    {
      assert c in lh || (exists j :: 0 <= j < |ops| && c in ops[j].unlogged) || Agree(c, mem, disk);
    }
  }

  lemma CoveredLogged(origin: Disk, mem: Disk, disk: Disk, lh: seq<nat>, ops: seq<Op>, lh': seq<nat>, ops': seq<Op>,
                      b: nat)
    requires Covered(origin, mem, disk, lh, ops) && b in lh' && (forall c :: c in lh ==> c in lh') && |ops'| == |ops|
    requires forall j :: 0 <= j < |ops| ==> ops[j].unlogged - {b} <= ops'[j].unlogged
    ensures Covered(origin, mem, disk, lh', ops')
  {
    forall c | c in origin
      ensures c in lh' || (exists j :: 0 <= j < |ops'| && c in ops'[j].unlogged) || Agree(c, mem, disk)
    {
      if j :| 0 <= j < |ops| && c in ops[j].unlogged {
        assert c == b || c in ops'[j].unlogged;
      }
    }
  }

  lemma CoveredEnd(origin: Disk, mem: Disk, disk: Disk, lh: seq<nat>, ops: seq<Op>, i: nat)
    requires Covered(origin, mem, disk, lh, ops) && i < |ops| && ops[i].unlogged == {}
    ensures Covered(origin, mem, disk, lh, ops[..i] + ops[i + 1..])
  {
    var ops' := ops[..i] + ops[i + 1..];
    forall c | c in origin
      ensures c in lh || (exists j :: 0 <= j < |ops'| && c in ops'[j].unlogged) || Agree(c, mem, disk)
    {
      if j :| 0 <= j < |ops| && c in ops[j].unlogged {
        var k := if j < i then j else j - 1;
        assert ops'[k] == ops[j];
      }
    }
  }

  lemma BeginStep(s: State, id: nat)
    requires Inv(s) && Enabled(s, Begin(id))
    ensures Inv(Apply(s, Begin(id))) && Promise(Apply(s, Begin(id))) == Promise(s)
  {
    hide Safe, Geometry, Covered, Effect;
    PromiseExtends(s, Began(id));
    EffectExtends(s.origin, s.events, Began(id));
    CoveredMore(s.origin, s.mem, s.disk, s.lh, s.ops, s.ops + [Op(id, 0, {})]);
  }

  lemma ModifyStep(s: State, i: nat, b: nat, v: Block)
    requires Inv(s) && Enabled(s, Modify(i, b, v))
    ensures Inv(Apply(s, Modify(i, b, v))) && Promise(Apply(s, Modify(i, b, v))) == Promise(s)
  {
    hide Safe, Geometry, Covered, Effect;
    var e := Wrote(s.ops[i].id, b, v);
    PromiseExtends(s, e);
    EffectExtends(s.origin, s.events, e);
    var ops' := s.ops[i := s.ops[i].(unlogged := s.ops[i].unlogged + {b})];
    CoveredMore(s.origin, s.mem, s.disk, s.lh, s.ops, ops');
    CoveredModify(s.origin, s.mem, s.disk, s.lh, ops', i, b, v);
  }

  lemma LogWriteStep(s: State, i: nat, b: nat)
    requires Inv(s) && Space(s) && Enabled(s, LogWrite(i, b))
    ensures Inv(Apply(s, LogWrite(i, b))) && Promise(Apply(s, LogWrite(i, b))) == Promise(s)
  {
    hide Safe, Geometry, Covered, Effect;
    NotFull(s, i);
    var t := Logged(s, i, b);
    CoveredLogged(s.origin, s.mem, s.disk, s.lh, s.ops, t.lh, t.ops, b);
  }

  lemma EndStep(s: State, i: nat)
    requires Inv(s) && Enabled(s, End(i))
    ensures Inv(Apply(s, End(i))) && Promise(Apply(s, End(i))) == Promise(s)
  {
    hide Safe, Geometry, Covered, Effect;
    var e := Ended(s.ops[i].id);
    PromiseExtends(s, e);
    EffectExtends(s.origin, s.events, e);
    CoveredEnd(s.origin, s.mem, s.disk, s.lh, s.ops, i);
  }

  // ---------------------------------------------------------------- log space

  /** Log space that operations in progress may still claim. */
  function Left(ops: seq<Op>): int {
    if ops == [] then 0 else MAXOPBLOCKS - ops[0].added + Left(ops[1..])
  }

  ghost predicate Space(s: State) {
    && (forall i :: 0 <= i < |s.ops| ==> s.ops[i].added <= MAXOPBLOCKS)
    && |s.lh| + Left(s.ops) <= LOGBLOCKS
  }

  lemma {:induction false} LeftParts(ops: seq<Op>, i: nat)
    requires i < |ops| && forall k :: 0 <= k < |ops| ==> ops[k].added <= MAXOPBLOCKS
    ensures Left(ops) == Left(ops[..i] + ops[i + 1..]) + MAXOPBLOCKS - ops[i].added
    ensures Left(ops[..i] + ops[i + 1..]) >= 0
    ensures forall op :: Left(ops[i := op]) == Left(ops) + ops[i].added - op.added
  {
    if i == 0 {
      assert ops[..0] + ops[1..] == ops[1..];
      LeftBounds(ops[1..]);
      forall op ensures Left(ops[i := op]) == Left(ops) + ops[i].added - op.added {
        assert ops[i := op][1..] == ops[1..];
      }
    } else {
      LeftParts(ops[1..], i - 1);
      var rest := ops[..i] + ops[i + 1..];
      assert rest[1..] == ops[1..][..i - 1] + ops[1..][i..];
      forall op ensures Left(ops[i := op]) == Left(ops) + ops[i].added - op.added {
        assert ops[i := op][1..] == ops[1..][i - 1 := op];
      }
    }
  }

  lemma {:induction false} LeftBounds(ops: seq<Op>)
    requires forall k :: 0 <= k < |ops| ==> ops[k].added <= MAXOPBLOCKS
    ensures 0 <= Left(ops) <= |ops| * MAXOPBLOCKS
  {
    if ops != [] {
      LeftBounds(ops[1..]);
    }
  }

  lemma {:induction false} LeftAppend(ops: seq<Op>, op: Op)
    ensures Left(ops + [op]) == Left(ops) + MAXOPBLOCKS - op.added
  {
    if ops != [] {
      assert (ops + [op])[1..] == ops[1..] + [op];
      LeftAppend(ops[1..], op);
    } else {
      assert ops + [op] == [op];
    }
  }

  /**
   The admission test is no stricter than the log is small: a new operation is turned away,
   when nothing is being committed, only if the listed blocks, with MAXOPBLOCKS for each
   operation in progress and for the new one, are more than the log has. An empty log admits
   three operations and no fourth.
   */
  lemma TurnedAway(s: State, id: nat)
    requires s.pc == Running && forall k :: 0 <= k < |s.events| ==> s.events[k].id != id
    ensures Enabled(s, Begin(id)) <==> |s.lh| <= 3 * 10 - 10 * |s.ops| - 10
    ensures s.lh == [] ==> (Enabled(s, Begin(id)) <==> |s.ops| < 3)
  {
  }

  /** log_write's panics cannot happen to an operation that still has room of its own. */
  lemma NotFull(s: State, i: nat)
    requires Space(s) && i < |s.ops| && s.ops[i].added < MAXOPBLOCKS
    ensures |s.lh| < LOGBLOCKS && |s.ops| >= 1
  {
    LeftParts(s.ops, i);
  }

  lemma SpaceKept(s: State, a: Action)
    requires Shaped(s) && Enabled(s, a) && Space(s) && (s.pc == Running || s.ops == [])
    ensures Space(Apply(s, a))
  {
    hide Shaped, Advanced, Left;
    match a
    case Begin(id) =>
      LeftAppend(s.ops, Op(id, 0, {}));
      LeftBounds(s.ops);
    case Modify(i, b, v) => LeftParts(s.ops, i);
    case LogWrite(i, b) => SpaceLogged(s, i, b);
    case End(i) => LeftParts(s.ops, i);
    case Advance => SpaceAdvance(s);
    case Crash => LeftBounds([]);
  }

  lemma SpaceAdvance(s: State)
    requires Shaped(s) && s.pc != Running && s.ops == []
    ensures Space(Advanced(s))
  {
    hide Geometry;
  }

  lemma SpaceLogged(s: State, i: nat, b: nat)
    requires Space(s) && i < |s.ops| && s.ops[i].added < MAXOPBLOCKS
    ensures Space(Logged(s, i, b))
  {
    LeftParts(s.ops, i);
  }

  // ---------------------------------------------------------------- the record of operations

  ghost function Ids(ops: seq<Op>): set<nat> {
    set i | 0 <= i < |ops| :: ops[i].id
  }

  /** The record is in order, and the promised part of it holds only finished operations. */
  ghost predicate History(s: State) {
    && s.durable <= |s.events| && Legal(s.events)
    && Open(s.events) == Ids(s.ops)
    && (forall i, j :: 0 <= i < j < |s.ops| ==> s.ops[i].id != s.ops[j].id)
    && Open(s.events[..s.durable]) == {}
  }

  lemma {:induction false} OpenWasBegun(ev: seq<Event>, id: nat)
    requires id in Open(ev)
    ensures exists k :: 0 <= k < |ev| && ev[k].id == id
  {
    var ev0, e := ev[..|ev| - 1], ev[|ev| - 1];
    if id in Open(ev0) {
      OpenWasBegun(ev0, id);
      var k :| 0 <= k < |ev0| && ev0[k].id == id;
      assert ev[k].id == id;
    }
  }

  predicate LegalNext(open: set<nat>, ev: seq<Event>, e: Event) {
    if e.Began? then forall j :: 0 <= j < |ev| ==> ev[j].id != e.id else e.id in open
  }

  lemma LegalExtends(ev: seq<Event>, e: Event)
    requires Legal(ev) && LegalNext(Open(ev), ev, e)
    ensures Legal(ev + [e])
  {
    var ev' := ev + [e];
    forall i | 0 <= i < |ev'| ensures LegalNext(Open(ev'[..i]), ev'[..i], ev'[i]) {
      if i < |ev| {
        assert ev'[..i] == ev[..i];
        assert LegalNext(Open(ev[..i]), ev[..i], ev[i]);
      } else {
        assert ev'[..i] == ev;
      }
    }
  }

  lemma LegalPrefix(ev: seq<Event>, n: nat)
    requires Legal(ev) && n <= |ev|
    ensures Legal(ev[..n])
  {
    forall i | 0 <= i < n ensures LegalNext(Open(ev[..n][..i]), ev[..n][..i], ev[..n][i]) {
      assert ev[..n][..i] == ev[..i];
      assert LegalNext(Open(ev[..i]), ev[..i], ev[i]);
    }
  }

  lemma HistoryBegin(s: State, id: nat)
    requires History(s) && Shaped(s) && Enabled(s, Begin(id))
    ensures History(Apply(s, Begin(id)))
  {
    hide Geometry, Open, Legal;
    var e := Began(id);
    PromiseExtends(s, e);
    LegalExtends(s.events, e);
    OpenExtends(s.events, e);
    var ops' := s.ops + [Op(id, 0, {})];
    if id in Ids(s.ops) {
      OpenWasBegun(s.events, id);
    }
    assert forall i :: 0 <= i < |s.ops| ==> s.ops[i].id in Ids(s.ops);
    assert Ids(ops') == Ids(s.ops) + {id} by {
      assert ops'[|s.ops|].id == id;
      assert forall i :: 0 <= i < |s.ops| ==> ops'[i] == s.ops[i];
    }
  }

  lemma SameIds(ops: seq<Op>, ops': seq<Op>)
    requires |ops| == |ops'| && forall i :: 0 <= i < |ops| ==> ops[i].id == ops'[i].id
    ensures Ids(ops) == Ids(ops')
  {
    forall x ensures x in Ids(ops) <==> x in Ids(ops') {
    }
  }

  lemma HistoryModify(s: State, i: nat, b: nat, v: Block)
    requires History(s) && Shaped(s) && Enabled(s, Modify(i, b, v))
    ensures History(Apply(s, Modify(i, b, v)))
  {
    hide Geometry, Open, Legal;
    var e := Wrote(s.ops[i].id, b, v);
    PromiseExtends(s, e);
    assert s.ops[i].id in Ids(s.ops);
    LegalExtends(s.events, e);
    OpenExtends(s.events, e);
    SameIds(s.ops, Apply(s, Modify(i, b, v)).ops);
  }

  lemma HistoryLogWrite(s: State, i: nat, b: nat)
    requires History(s) && Shaped(s) && Enabled(s, LogWrite(i, b))
    ensures History(Apply(s, LogWrite(i, b)))
  {
    hide Geometry, Open, Legal;
    SameIds(s.ops, Apply(s, LogWrite(i, b)).ops);
  }

  lemma IdsWithout(ops: seq<Op>, i: nat)
    requires i < |ops| && forall j, k :: 0 <= j < k < |ops| ==> ops[j].id != ops[k].id
    ensures Ids(ops[..i] + ops[i + 1..]) == Ids(ops) - {ops[i].id}
  {
    var rest := ops[..i] + ops[i + 1..];
    forall x ensures x in Ids(rest) <==> x in Ids(ops) - {ops[i].id} {
      if x in Ids(ops) && x != ops[i].id {
        var j :| 0 <= j < |ops| && ops[j].id == x;
        assert rest[if j < i then j else j - 1] == ops[j];
      }
      if x in Ids(rest) {
        var j :| 0 <= j < |rest| && rest[j].id == x;
        assert rest[j] == ops[if j < i then j else j + 1];
      }
    }
  }

  lemma HistoryEnd(s: State, i: nat)
    requires History(s) && Shaped(s) && Enabled(s, End(i))
    ensures History(Apply(s, End(i)))
  {
    hide Geometry, Open, Legal, Ids;
    var e := Ended(s.ops[i].id);
    PromiseExtends(s, e);
    IdsMember(s.ops, i);
    LegalExtends(s.events, e);
    OpenExtends(s.events, e);
    IdsWithout(s.ops, i);
  }

  lemma IdsMember(ops: seq<Op>, i: nat)
    requires i < |ops|
    ensures ops[i].id in Ids(ops)
  {
  }

  lemma HistoryAdvance(s: State)
    requires History(s) && Shaped(s) && (s.pc != Running ==> s.ops == [])
    ensures History(Advanced(s))
  {
    hide Geometry, Open, Legal;
    assert s.events[..|s.events|] == s.events;
    assert s.ops == [] ==> Ids(s.ops) == {};
  }

  lemma HistoryCrash(s: State)
    requires History(s) && Shaped(s)
    ensures History(Crashed(s))
  {
    hide Geometry, Open, Legal;
    LegalPrefix(s.events, s.durable);
    assert s.events[..s.durable][..s.durable] == s.events[..s.durable];
    assert Ids([]) == {};
  }

  // ---------------------------------------------------------------- whole runs

  ghost predicate Good(s: State) {
    Inv(s) && Space(s) && History(s)
  }

  lemma AdvanceKeeps(s: State)
    requires Inv(s)
    ensures Inv(Advanced(s))
    ensures Promise(Advanced(s)) == if s.pc == WriteHead then Effect(s.origin, s.events) else Promise(s)
  {
    hide Inv, Promise;
    if s.pc.CopyToLog? {
      CopyStep(s);
    } else if s.pc == WriteHead {
      CommitPoint(s);
    } else if s.pc.Install? || s.pc.Reinstall? {
      InstallStep(s);
    } else if s.pc == ClearHead || s.pc == Reclear {
      ClearStep(s);
    } else {
      OtherStep(s);
    }
  }

  lemma StepKeepsInv(s: State, a: Action)
    requires Inv(s) && Space(s) && Enabled(s, a)
    ensures Inv(Apply(s, a))
  {
    hide Inv, Space, Promise;
    match a
    case Begin(id) => BeginStep(s, id);
    case Modify(i, b, v) => ModifyStep(s, i, b, v);
    case LogWrite(i, b) => LogWriteStep(s, i, b);
    case End(i) => EndStep(s, i);
    case Advance => AdvanceKeeps(s);
    case Crash => CrashStep(s);
  }

  lemma StepKeepsHistory(s: State, a: Action)
    requires History(s) && Shaped(s) && Enabled(s, a) && (s.pc != Running ==> s.ops == [])
    ensures History(Apply(s, a))
  {
    hide History, Geometry;
    match a
    case Begin(id) => HistoryBegin(s, id);
    case Modify(i, b, v) => HistoryModify(s, i, b, v);
    case LogWrite(i, b) => HistoryLogWrite(s, i, b);
    case End(i) => HistoryEnd(s, i);
    case Advance => HistoryAdvance(s);
    case Crash => HistoryCrash(s);
  }

  lemma InvShape(s: State)
    requires Inv(s)
    ensures Shaped(s) && (s.pc != Running ==> s.ops == []) && s.durable <= |s.events|
  {
  }

  /** Every step, of a client, of commit, of recovery, or a crash, keeps the invariant. */
  lemma StepKeepsGood(s: State, a: Action)
    requires Good(s) && Enabled(s, a)
    ensures Shaped(s) && Good(Apply(s, a))
  {
    hide Inv, Space, History, Apply;
    InvShape(s);
    StepKeepsInv(s, a);
    SpaceKept(s, a);
    StepKeepsHistory(s, a);
  }

  /** A freshly formatted disk, about to be mounted. */
  ghost predicate Initial(s: State) {
    && Shaped(s) && Decode(s.disk[s.start]) == []
    && s.origin == HomeOf(s.start, s.disk) && s.mem == map[] && s.lh == [] && s.ops == [] && s.pc == ReadHead
    && s.events == [] && s.durable == 0
  }

  lemma InitialGood(s: State)
    requires Initial(s)
    ensures Good(s)
  {
    assert Promise(s) == s.origin;
    assert Ids([]) == {};
  }

  ghost predicate Moves(s: State, a: Action, t: State) {
    Enabled(s, a) && Shaped(s) && t == Apply(s, a)
  }

  ghost predicate Run(ss: seq<State>, acts: seq<Action>) {
    && |ss| == |acts| + 1
    && forall k :: 0 <= k < |acts| ==> Moves(ss[k], acts[k], ss[k + 1])
  }

  lemma {:induction false} RunStaysGood(ss: seq<State>, acts: seq<Action>, k: nat)
    requires Run(ss, acts) && Good(ss[0]) && k < |ss|
    ensures Good(ss[k])
  {
    hide Good, Apply, Shaped, Enabled;
    if k > 0 {
      RunStaysGood(ss, acts, k - 1);
      assert Moves(ss[k - 1], acts[k - 1], ss[k]);
      StepKeepsGood(ss[k - 1], acts[k - 1]);
    }
  }

  // ---------------------------------------------------------------- what recovery restores

  /** recover_from_log as one function of the disk: install the logged blocks in order, then clear the header. */
  ghost function InstallFrom(start: nat, disk: Disk, hd: seq<nat>, t: nat): Disk
    requires t <= |hd| <= LOGBLOCKS && forall k :: start <= k <= start + LOGBLOCKS ==> k in disk
    decreases |hd| - t
  {
    if t == |hd| then disk else InstallFrom(start, disk[hd[t] := disk[start + 1 + t]], hd, t + 1)
  }

  lemma {:induction false} InstallFromSafe(start: nat, origin: Disk, disk: Disk, hd: seq<nat>, p: Disk, t: nat)
    requires Geometry(start, origin, disk) && Safe(start, origin, disk, hd, p)
    requires Installed(disk, hd, t, p) && |hd| <= LOGBLOCKS
    ensures var d := InstallFrom(start, disk, hd, t);
      && start in disk && start in d && d[start] == disk[start] && Geometry(start, origin, d)
      && Safe(start, origin, d, hd, p) && Installed(d, hd, |hd|, p)
    decreases |hd| - t
  {
    if t < |hd| {
      InstallBlock(start, origin, disk, hd, p, t);
      InstallFromSafe(start, origin, disk[hd[t] := disk[start + 1 + t]], hd, p, t + 1);
    }
  }

  ghost predicate Mountable(start: nat, disk: Disk) {
    && (forall k :: start <= k <= start + LOGBLOCKS ==> k in disk)
    && WellFormedHead(disk[start])
  }

  ghost function Recover(start: nat, disk: Disk): Disk
    requires Mountable(start, disk)
  {
    var d := InstallFrom(start, disk, Decode(disk[start]), 0);
    d[start := Encode([], disk[start])]
  }

  lemma RecoverRestores(start: nat, origin: Disk, disk: Disk, p: Disk)
    requires Mountable(start, disk) && Geometry(start, origin, disk)
    requires Safe(start, origin, disk, Decode(disk[start]), p)
    ensures Mountable(start, Recover(start, disk)) && HomeOf(start, Recover(start, disk)) == p
    ensures Geometry(start, origin, Recover(start, disk)) && Decode(Recover(start, disk)[start]) == []
    ensures Safe(start, origin, Recover(start, disk), [], p)
  {
    var hd, head := Decode(disk[start]), Encode([], disk[start]);
    InstallFromSafe(start, origin, disk, hd, p, 0);
    HeaderRoundTrip([], disk[start]);
    var d := InstallFrom(start, disk, hd, 0);
    ClearBlocks(start, origin, d, hd, p, head);
    HomeMatches(start, origin, d, p);
    assert HomeOf(start, d[start := head]) == HomeOf(start, d);
  }

  /** What recovery makes of the disk of a good state. */
  lemma GoodRecovers(s: State)
    requires Good(s)
    ensures Mountable(s.start, s.disk) && s.durable <= |s.events|
    ensures HomeOf(s.start, Recover(s.start, s.disk)) == Effect(s.origin, s.events[..s.durable])
    ensures Legal(s.events) && Open(s.events[..s.durable]) == {}
  {
    hide Safe, Space, Legal, Effect, Recover;
    RecoverRestores(s.start, s.origin, s.disk, Promise(s));
  }

  /**
   Crash atomicity. In every state of every run, whatever clients, commits, crashes and
   interrupted recoveries came before, recovering the disk as it is gives exactly the
   effect of a prefix of the record in which every operation that began has ended.
   */
  lemma CrashAtomicity(ss: seq<State>, acts: seq<Action>, k: nat)
    requires Run(ss, acts) && Initial(ss[0]) && k < |ss|
    ensures var s := ss[k];
      && Mountable(s.start, s.disk) && s.durable <= |s.events|
      && HomeOf(s.start, Recover(s.start, s.disk)) == Effect(s.origin, s.events[..s.durable])
      && Legal(s.events) && Open(s.events[..s.durable]) == {}
  {
    hide Good, Run, Initial, Mountable, Recover, HomeOf, Effect, Legal, Open;
    InitialGood(ss[0]);
    RunStaysGood(ss, acts, k);
    GoodRecovers(ss[k]);
  }

  /** Recovering twice is recovering once. */
  lemma RecoveryIdempotent(s: State)
    requires Good(s)
    ensures var d := s.disk;
      && Mountable(s.start, d) && Mountable(s.start, Recover(s.start, d))
      && HomeOf(s.start, Recover(s.start, Recover(s.start, d))) == HomeOf(s.start, Recover(s.start, d))
  {
    hide Safe, Space, History, Effect, Recover, AtPc;
    RecoverRestores(s.start, s.origin, s.disk, Promise(s));
    RecoverRestores(s.start, s.origin, Recover(s.start, s.disk), Promise(s));
  }

  /** t still promises everything that s has promised. */
  ghost predicate Keeps(s: State, t: State) {
    && s.durable <= |s.events| && s.durable <= t.durable <= |t.events|
    && t.events[..s.durable] == s.events[..s.durable] && t.origin == s.origin
  }

  lemma KeepsTransitive(s: State, t: State, u: State)
    requires Keeps(s, t) && Keeps(t, u)
    ensures Keeps(s, u)
  {
    assert u.events[..s.durable] == u.events[..t.durable][..s.durable];
    assert t.events[..s.durable] == t.events[..t.durable][..s.durable];
  }

  lemma StepKeepsPromise(s: State, a: Action)
    requires Shaped(s) && Enabled(s, a)
    ensures Keeps(s, Apply(s, a))
  {
    hide Geometry;
  }

  /** What a state has promised, later states promise too: a group whose header was written is never undone. */
  lemma {:induction false} PromisesKept(ss: seq<State>, acts: seq<Action>, j: nat, k: nat)
    requires Run(ss, acts) && Initial(ss[0]) && j <= k < |ss|
    ensures Keeps(ss[j], ss[k])
    decreases k
  {
    hide Good, Apply, Keeps, Shaped, Initial;
    InitialGood(ss[0]);
    if j == k {
      RunStaysGood(ss, acts, j);
      GoodKeeps(ss[j]);
    } else {
      PromisesKept(ss, acts, j, k - 1);
      assert Moves(ss[k - 1], acts[k - 1], ss[k]);
      StepKeepsPromise(ss[k - 1], acts[k - 1]);
      KeepsTransitive(ss[j], ss[k - 1], ss[k]);
    }
  }

  lemma GoodKeeps(s: State)
    requires Good(s)
    ensures Keeps(s, s)
  {
  }

  /** Once the commit's header write is done, everything clients had done by then is promised. */
  lemma HeaderWriteCommits(s: State)
    requires Good(s) && s.pc == WriteHead
    ensures Shaped(s) && Advanced(s).durable == |s.events|
    ensures Promise(Advanced(s)) == Effect(s.origin, s.events) == s.mem
  {
    CommitPoint(s);
  }

  // ---------------------------------------------------------------- between operations

  /** The last end_op leaves nothing to commit. */
  ghost predicate Swept(s: State) {
    s.pc == Running && s.ops == [] ==> s.lh == []
  }

  lemma StepSweeps(s: State, a: Action)
    requires Inv(s) && Enabled(s, a) && Swept(s)
    ensures Swept(Apply(s, a))
  {
    hide Safe, Geometry, Covered, Copied, Effect, InMemory, Clean, Installed, WellFormedHead, Decode, Encode, HomeOf;
  }

  lemma {:induction false} RunSweeps(ss: seq<State>, acts: seq<Action>, k: nat)
    requires Run(ss, acts) && Initial(ss[0]) && k < |ss|
    ensures Good(ss[k]) && Swept(ss[k])
  {
    hide Inv, Space, History, Apply, Shaped, Enabled;
    InitialGood(ss[0]);
    RunStaysGood(ss, acts, k);
    if k > 0 {
      RunSweeps(ss, acts, k - 1);
      assert Moves(ss[k - 1], acts[k - 1], ss[k]);
      StepSweeps(ss[k - 1], acts[k - 1]);
    }
  }

  /**
   In every run, whenever no operation is open and no commit is under way, a crash would lose
   nothing: recovering the disk gives the effect of everything that clients have done.
   */
  lemma QuietIsDurable(ss: seq<State>, acts: seq<Action>, k: nat)
    requires Run(ss, acts) && Initial(ss[0]) && k < |ss| && ss[k].pc == Running && ss[k].ops == []
    ensures var s := ss[k];
      Mountable(s.start, s.disk) && HomeOf(s.start, Recover(s.start, s.disk)) == Effect(s.origin, s.events) == s.mem
  {
    hide Run, Initial, Mountable, Recover, HomeOf, Effect, Space, History;
    RunSweeps(ss, acts, k);
    CrashAtomicity(ss, acts, k);
    InPlace(ss[k]);
  }

  lemma InPlace(s: State)
    requires Inv(s) && s.pc == Running && s.ops == [] && s.lh == []
    ensures Promise(s) == s.mem == Effect(s.origin, s.events)
  {
    hide Effect, Geometry, WellFormedHead, Decode, Encode;
    var p := Promise(s);
    forall b | b in p ensures b in s.mem && s.mem[b] == p[b] {
      assert Agree(b, s.mem, s.disk);
    }
  }

  // ---------------------------------------------------------------- an operation's share of the log

  /** The block that step k of a run gives to log_write on behalf of operation id. */
  ghost function LoggedBy(s: State, a: Action, id: nat): set<nat> {
    if a.LogWrite? && a.i < |s.ops| && s.ops[a.i].id == id then {a.b} else {}
  }

  /** The distinct blocks that operation id has given to log_write since it began. */
  ghost function Mine(ss: seq<State>, acts: seq<Action>, k: nat, id: nat): set<nat>
    requires |ss| == |acts| + 1 && k < |ss|
  {
    if k == 0 || acts[k - 1] == Begin(id) then {}
    else Mine(ss, acts, k - 1, id) + LoggedBy(ss[k - 1], acts[k - 1], id)
  }

  ghost predicate Shares(ss: seq<State>, acts: seq<Action>, k: nat, i: nat)
    requires |ss| == |acts| + 1 && k < |ss| && i < |ss[k].ops|
  {
    var m := Mine(ss, acts, k, ss[k].ops[i].id);
    ss[k].ops[i].added <= |m| && forall b :: b in m ==> b in ss[k].lh
  }

  lemma {:induction false} AddedAtMost(ss: seq<State>, acts: seq<Action>, k: nat, i: nat)
    requires Run(ss, acts) && Good(ss[0]) && ss[0].ops == [] && k < |ss| && i < |ss[k].ops|
    ensures Shares(ss, acts, k, i)
    decreases k
  {
    hide Good, Moves;
    var s, a := ss[k - 1], acts[k - 1];
    assert Moves(s, a, ss[k]);
    RunStaysGood(ss, acts, k - 1);
    GoodOps(s);
    OpsStep(s, a, ss[k], i);
    var j := Before(s, a, i);
    if j < |s.ops| {
      AddedAtMost(ss, acts, k - 1, j);
      NewId(s, a, ss[k], j);
      SharesStep(ss, acts, k, i, j);
    }
  }

  lemma GoodOps(s: State)
    requires Good(s)
    ensures (s.pc != Running ==> s.ops == []) && DistinctIds(s.ops)
  {
  }

  ghost predicate DistinctIds(ops: seq<Op>) {
    forall i, j :: 0 <= i < j < |ops| ==> ops[i].id != ops[j].id
  }

  /** A new operation's id is not that of one in progress. */
  lemma NewId(s: State, a: Action, t: State, j: nat)
    requires Good(s) && Moves(s, a, t) && j < |s.ops|
    ensures a != Begin(s.ops[j].id)
  {
    hide Apply, Shaped;
    assert s.ops[j].id in Ids(s.ops);
    OpenWasBegun(s.events, s.ops[j].id);
  }

  /** What a step does to the operations and to the list, while there are operations. */
  lemma OpsStep(s: State, a: Action, t: State, i: nat)
    requires Moves(s, a, t) && (s.pc != Running ==> s.ops == []) && i < |t.ops|
    ensures var j := Before(s, a, i);
      && j <= |s.ops|
      && (j == |s.ops| ==> a.Begin? && t.ops[i] == Op(a.id, 0, {}))
      && (j < |s.ops| ==>
            && t.ops[i].id == s.ops[j].id && (forall b :: b in s.lh ==> b in t.lh)
            && if a.LogWrite? && a.i == j
               then a.b in t.lh && t.ops[i].added == (if a.b in s.lh then s.ops[j].added else s.ops[j].added + 1)
               else t.ops[i].added == s.ops[j].added)
  {
    hide Shaped;
    if a == Advance {
      AdvancedOps(s);
    }
  }

  lemma AdvancedOps(s: State)
    requires Shaped(s)
    ensures Advanced(s).ops == s.ops
  {
    hide Geometry;
  }

  /** Where operation i of the next state is in this one; |s.ops| if it is new. */
  ghost function Before(s: State, a: Action, i: nat): nat {
    if a.End? && i >= a.i then i + 1 else i
  }

  lemma SharesStep(ss: seq<State>, acts: seq<Action>, k: nat, i: nat, j: nat)
    requires Run(ss, acts) && 0 < k < |ss| && i < |ss[k].ops|
    requires j == Before(ss[k - 1], acts[k - 1], i) < |ss[k - 1].ops|
    requires (ss[k - 1].pc != Running ==> ss[k - 1].ops == [])
    requires DistinctIds(ss[k - 1].ops) && acts[k - 1] != Begin(ss[k - 1].ops[j].id) && Shares(ss, acts, k - 1, j)
    ensures Shares(ss, acts, k, i)
  {
    hide Moves, Mine;
    var s, a, t := ss[k - 1], acts[k - 1], ss[k];
    assert Moves(s, a, t);
    OpsStep(s, a, t, i);
    MineStep(ss, acts, k, s.ops[j].id);
    var m := Mine(ss, acts, k - 1, s.ops[j].id);
    if a.LogWrite? && a.i == j {
      OneMore(m, a.b);
    } else {
      assert m + {} == m;
    }
  }

  lemma OneMore(m: set<nat>, b: nat)
    ensures |m + {b}| == if b in m then |m| else |m| + 1
  {
    if b in m {
      assert m + {b} == m;
    }
  }

  lemma MineStep(ss: seq<State>, acts: seq<Action>, k: nat, id: nat)
    requires |ss| == |acts| + 1 && 0 < k < |ss| && acts[k - 1] != Begin(id)
    ensures Mine(ss, acts, k, id) == Mine(ss, acts, k - 1, id) + LoggedBy(ss[k - 1], acts[k - 1], id)
  {
  }

  /**
   In every run, an operation that has logged fewer than MAXOPBLOCKS distinct blocks meets
   neither panic of log_write, whatever the others have logged.
   */
  lemma ShareSuffices(ss: seq<State>, acts: seq<Action>, k: nat, i: nat)
    requires Run(ss, acts) && Initial(ss[0]) && k < |ss| && i < |ss[k].ops|
    requires |Mine(ss, acts, k, ss[k].ops[i].id)| < MAXOPBLOCKS
    ensures |ss[k].lh| < LOGBLOCKS && |ss[k].ops| >= 1
  {
    InitialGood(ss[0]);
    AddedAtMost(ss, acts, k, i);
    RunStaysGood(ss, acts, k);
    NotFull(ss[k], i);
  }
}
