/**
 kernel/log.c as code: the in-memory log and the loops of commit and recovery. Each
 block write is one step of the transition system in module Log, recorded in `past`,
 so a crash between any two writes is a crash in a state of a run.
 */
module LogDriver {
  import opened Log

  /** write_head fills the header buffer word by word. */
  method FillHeader(lh: seq<nat>, was: Block) returns (b: Block)
    requires |lh| <= LOGBLOCKS && |was| == WORDS
    ensures b == Encode(lh, was)
  {
    b := was[0 := |lh|];
    for i := 0 to |lh|
      invariant |b| == WORDS && b[0] == |lh|
      invariant forall k :: 0 <= k < i ==> b[k + 1] == lh[k]
      invariant forall k :: i < k < WORDS ==> b[k] == was[k]
    {
      b := b[i + 1 := lh[i]];
    }
    assert b[|lh| + 1..] == was[|lh| + 1..];
    assert b[1..|lh| + 1] == seq(|lh|, i requires 0 <= i < |lh| => lh[i] as int);
    assert b == b[..1] + b[1..|lh| + 1] + b[|lh| + 1..];
  }

  /** read_head copies that many block numbers out of the header buffer. */
  method ScanHeader(b: Block) returns (lh: seq<nat>)
    requires WellFormedHead(b)
    ensures lh == Decode(b)
  {
    lh := [];
    for i := 0 to b[0]
      invariant |lh| == i && forall k :: 0 <= k < i ==> lh[k] == b[k + 1]
    {
      lh := lh + [b[i + 1] as nat];
    }
  }

  predicate Committing(pc: Pc) {
    pc.CopyToLog? || pc == WriteHead || pc.Install? || pc == ClearHead || pc == Unlock
  }

  lemma RunExtends(ss: seq<State>, acts: seq<Action>, a: Action, t: State)
    requires Run(ss, acts) && Moves(ss[|ss| - 1], a, t)
    ensures Run(ss + [t], acts + [a])
  {
    var ss', acts' := ss + [t], acts + [a];
    forall k | 0 <= k < |acts'| ensures Moves(ss'[k], acts'[k], ss'[k + 1]) {
      if k < |acts| {
        assert Moves(ss[k], acts[k], ss[k + 1]);
      }
    }
  }

  class FsLog {
    const start: nat
    var disk: Disk
    var mem: Disk
    var lh: seq<nat>
    var outstanding: nat
    var committing: bool

    ghost var s: State
    ghost var past: seq<State>
    ghost var acts: seq<Action>

    ghost predicate Matches()
      reads this
    {
      && s.start == start && s.disk == disk && s.mem == mem && s.lh == lh
      && |s.ops| == outstanding && committing == Committing(s.pc)
    }

    ghost predicate Recorded()
      reads this
    {
      Good(s) && Run(past, acts) && Initial(past[0]) && past[|past| - 1] == s
    }

    ghost predicate Valid()
      reads this
    {
      Matches() && Recorded()
    }

    /** The first boot from a formatted disk, up to initlog. */
    constructor (start: nat, disk: Disk, ghost s: State)
      requires Initial(s) && s.start == start && s.disk == disk
      ensures Valid() && this.s == s && past == [s] && this.disk == disk
    {
      this.start, this.disk, mem, lh, outstanding, committing := start, disk, map[], [], 0, false;
      this.s, past, acts := s, [s], [];
      new;
      InitialGood(s);
    }

    /** A crash, at any time, and the next boot up to initlog: the disk is all that is left. */
    constructor Reboot(was: FsLog)
      requires was.Valid()
      ensures Valid() && s.pc == ReadHead && disk == was.disk && start == was.start && was.past < past
      ensures was.s.durable <= |was.s.events| && s.events == was.s.events[..was.s.durable]
    {
      start, disk, mem, lh, outstanding, committing := was.start, was.disk, map[], [], 0, false;
      s, past, acts := was.s, was.past, was.acts;
      new;
      Step(Crash);
    }

    /**
     Whatever this code has done so far: had the machine stopped after any of its block writes,
     recovery would restore exactly the effect of a prefix of the record in which every
     operation that began has ended.
     */
    lemma Survives(k: nat)
      requires Recorded() && k < |past|
      ensures var t := past[k];
        && Mountable(t.start, t.disk) && t.durable <= |t.events|
        && HomeOf(t.start, Recover(t.start, t.disk)) == Effect(t.origin, t.events[..t.durable])
        && Legal(t.events) && Open(t.events[..t.durable]) == {}
    {
      hide Good, Run, Initial, Mountable, Recover, HomeOf, Effect, Legal, Open;
      CrashAtomicity(past, acts, k);
    }

    /** Moves the recorded state along; the caller moves the real one. */
    ghost method Step(a: Action)
      requires Recorded() && Enabled(s, a)
      modifies this`s, this`past, this`acts
      ensures Recorded() && old(past) < past
      ensures Shaped(old(s)) && s == Apply(old(s), a)
    {
      hide Good, Apply, Shaped, Enabled, Initial;
      StepKeepsGood(s, a);
      RunExtends(past, acts, a, Apply(s, a));
      past, acts, s := past + [Apply(s, a)], acts + [a], Apply(s, a);
    }

    /** write_log */
    method CopyLoop()
      requires Valid() && s.pc == CopyToLog(0)
      modifies this
      ensures Valid() && s.pc == WriteHead && old(past) < past
      ensures s.events == old(s.events) && lh == old(lh) && mem == old(mem) && outstanding == old(outstanding)
    {
      hide Good, Run, Initial, Geometry;
      var tail := 0;
      GoodShape(s);
      while tail < |lh|
        invariant Valid() && Shaped(s) && s.pc == CopyToLog(tail) && tail <= |lh| && old(past) <= past
        invariant s.events == old(s.events) && lh == old(lh) && mem == old(mem) && outstanding == old(outstanding)
      {
        disk := disk[start + 1 + tail := mem[lh[tail]]];
        Step(Advance);
        GoodShape(s);
        tail := tail + 1;
      }
      Step(Advance);
    }

    /** write_head, as the commit point and as the clearing of the log. */
    method HeadBlock()
      requires Valid() && (s.pc == WriteHead || s.pc == ClearHead)
      modifies this
      ensures Valid() && old(past) < past && s.events == old(s.events)
      ensures s == old(Advanced(s))
      ensures lh == old(lh) && mem == old(mem) && outstanding == old(outstanding)
    {
      hide Good, Run, Initial, Geometry;
      GoodShape(s);
      HeadWords(s);
      var b := FillHeader(lh, disk[start]);
      disk := disk[start := b];
      Step(Advance);
    }

    /** install_trans(0) and install_trans(1): each log block goes through its home block's buffer. */
    method InstallLoop()
      requires Valid() && (s.pc == Install(0) || s.pc == Reinstall(0))
      modifies this
      ensures Valid() && old(past) < past
      ensures s.pc == if old(s.pc).Install? then ClearHead else Reclear
      ensures s.events == old(s.events) && s.durable == old(s.durable) && s.origin == old(s.origin)
      ensures (old(s.pc).Install? ==> mem == old(mem)) && outstanding == old(outstanding)
    {
      hide Good, Run, Initial, Shaped, Apply, Enabled, Advanced;
      var tail := 0;
      GoodShape(s);
      while tail < |lh|
        invariant Valid() && Shaped(s) && tail <= |lh| && old(past) <= past
        invariant s.pc == if old(s.pc).Install? then Install(tail) else Reinstall(tail)
        invariant s == old(s).(disk := disk, mem := mem, pc := s.pc) && (s.pc.Install? ==> mem == old(mem))
      {
        InstallTurn(tail);
        tail := tail + 1;
      }
      InstallEnd(s, tail);
      lh := [];
      Step(Advance);
    }

    /** One turn: memmove and bwrite. After a commit the buffer keeps its contents. */
    method InstallTurn(tail: nat)
      requires Valid() && (s.pc == Install(tail) || s.pc == Reinstall(tail)) && tail < |lh|
      modifies this
      ensures Valid() && Shaped(s) && old(past) < past
      ensures s == old(s).(disk := disk, mem := mem, pc := s.pc) && lh == old(lh) && outstanding == old(outstanding)
      ensures s.pc == if old(s.pc).Install? then Install(tail + 1) else Reinstall(tail + 1)
      ensures s.pc.Install? ==> mem == old(mem)
    {
      hide Good, Run, Initial, Shaped, Apply, Enabled, Advanced;
      InstallNext(s);
      mem := mem[lh[tail] := disk[start + 1 + tail]];
      disk := disk[lh[tail] := mem[lh[tail]]];
      Step(Advance);
      GoodShape(s);
    }

    /** The body of commit(): write_log, write_head, install_trans, write_head. */
    method WriteAll()
      requires Valid() && s.pc == CopyToLog(0)
      modifies this
      ensures Valid() && old(past) < past && s.pc == Unlock
      ensures s.events == old(s.events) && outstanding == old(outstanding) && mem == old(mem) && s.durable == |s.events|
    {
      hide Good, Run, Initial, Shaped, Apply, Advanced, Enabled;
      CopyLoop();
      GoodShape(s);
      HeadNext(s);
      HeadBlock();
      InstallLoop();
      GoodShape(s);
      HeadNext(s);
      HeadBlock();
    }

    /** commit() together with the two critical sections of end_op around it. */
    method Commit()
      requires Valid() && s.pc == if lh == [] then Unlock else CopyToLog(0)
      modifies this
      ensures Valid() && old(past) < past && s.pc == Running && !committing && lh == []
      ensures s.events == old(s.events) && outstanding == old(outstanding) && mem == old(mem)
      ensures old(s.pc).CopyToLog? ==> s.durable == |s.events|
    {
      hide Good, Run, Initial, Shaped, Apply, Enabled;
      if |lh| > 0 {
        WriteAll();
      }
      UnlockClean(s);
      GoodShape(s);
      UnlockNext(s);
      committing := false;
      Step(Advance);
    }

    /** end_op: the last operation to end commits the group. */
    method EndOp(i: nat)
      requires Valid() && Enabled(s, End(i))
      modifies this
      ensures Valid() && old(past) < past && s.pc == Running
      ensures outstanding == old(outstanding) - 1 && mem == old(mem)
      ensures s.events == old(s.events) + [Ended(old(s.ops[i].id))]
      ensures outstanding == 0 && old(lh) != [] ==> s.durable == |s.events|
    {
      hide Good, Run, Initial, Shaped;
      assert !committing;
      outstanding := outstanding - 1;
      if outstanding == 0 {
        committing := true;
        Step(End(i));
        Commit();
      } else {
        Step(End(i));
      }
    }

    /** One turn of begin_op's loop: false means sleep and try again. */
    method BeginOp(id: nat) returns (ok: bool)
      requires Valid() && !s.pc.ReadHead? && !s.pc.Reinstall? && !s.pc.Reclear?
      requires forall k :: 0 <= k < |s.events| ==> s.events[k].id != id
      modifies this
      ensures Valid() && (ok <==> Enabled(old(s), Begin(id)))
      ensures ok <==> !old(committing) && |old(lh)| + MAXOPBLOCKS * old(outstanding) + MAXOPBLOCKS <= LOGBLOCKS
      ensures if ok then old(past) < past && s == Apply(old(s), Begin(id)) else s == old(s) && past == old(past)
    {
      hide Good, Run, Initial;
      GoodShape(s);
      if committing {
        return false;
      } else if |lh| + (outstanding + 1) * MAXOPBLOCKS > LOGBLOCKS {
        return false;
      }
      outstanding := outstanding + 1;
      Step(Begin(id));
      return true;
    }

    /** log_write: neither panic is reachable, and a block is listed once however often it is logged. */
    method LogWrite(i: nat, b: nat)
      requires Valid() && Enabled(s, Action.LogWrite(i, b))
      modifies this
      ensures Valid() && old(past) < past
      ensures lh == if b in old(lh) then old(lh) else old(lh) + [b]
      ensures mem == old(mem) && disk == old(disk) && outstanding == old(outstanding)
    {
      hide Good, Run, Initial, Geometry;
      GoodSpace(s, i);
      assert |lh| < LOGBLOCKS && outstanding >= 1;
      var k := 0;
      while k < |lh| && lh[k] != b
        invariant 0 <= k <= |lh| && b !in lh[..k]
      {
        k := k + 1;
      }
      if k == |lh| {
        lh := lh + [b];
      } else {
        lh := lh[k := b];
      }
      Step(Action.LogWrite(i, b));
    }

    /** read_head */
    method LoadHeader()
      requires Valid() && s.pc == ReadHead
      modifies this
      ensures Valid() && old(past) < past && s.pc == Reinstall(0)
      ensures s == old(s).(lh := lh, pc := s.pc)
    {
      hide Good, Run, Initial, Geometry;
      GoodShape(s);
      lh := ScanHeader(disk[start]);
      Step(Advance);
    }

    /** The last write of recovery; from here on bread sees the buffers recovery left, or else the disk. */
    method ClearAfterRecovery()
      requires Valid() && s.pc == Reclear
      modifies this
      ensures Valid() && old(past) < past && s.pc == Running && lh == []
      ensures s.events == old(s.events) && s.durable == old(s.durable) && s.origin == old(s.origin)
      ensures mem == HomeOf(start, old(disk)) + old(mem) && HomeOf(start, old(disk)) == HomeOf(start, disk)
    {
      hide Good, Run, Initial, Geometry;
      GoodShape(s);
      HeadWords(s);
      var b := FillHeader(lh, disk[start]);
      mem := HomeOf(start, disk) + mem;
      HeaderIsNotHome(start, disk, b);
      disk := disk[start := b];
      ReclearHolds(s);
      Step(Advance);
    }

    /** recover_from_log, from the state a crash leaves behind: memory and disk hold what was promised. */
    method RecoverFromLog()
      requires Valid() && s.pc == ReadHead
      modifies this
      ensures Valid() && old(past) < past && s.pc == Running && lh == []
      ensures s.events == old(s.events) && s.durable == |s.events|
      ensures mem == Effect(old(s.origin), old(s.events)) == HomeOf(start, disk)
    {
      hide Good, Run, Initial, Shaped, Effect;
      LoadHeader();
      InstallLoop();
      ReclearHolds(s);
      ClearAfterRecovery();
      RestoresPromise(s);
    }
  }

  lemma HeaderIsNotHome(start: nat, disk: Disk, b: Block)
    ensures HomeOf(start, disk[start := b]) == HomeOf(start, disk)
  {
  }

  lemma HeadWords(s: State)
    requires Good(s)
    ensures s.start in s.disk && |s.disk[s.start]| == WORDS && |s.lh| <= LOGBLOCKS
  {
  }

  lemma InstallNext(s: State)
    requires Good(s) && (s.pc.Install? || s.pc.Reinstall?) && s.pc.tail < |s.lh|
    ensures var tail := s.pc.tail;
      && Shaped(s) && s.start + 1 + tail in s.disk && Enabled(s, Advance)
      && Apply(s, Advance) ==
           CopiedHome(s, tail).(pc := if s.pc.Install? then Install(tail + 1) else Reinstall(tail + 1))
      && (s.pc.Install? ==> CopiedHome(s, tail).mem == s.mem)
  {
    hide Inv, Advanced, Space, History;
    InvShape(s);
    AdvancedInstall(s);
    if s.pc.Install? {
      InstallFinds(s);
    }
  }

  lemma InstallEnd(s: State, tail: nat)
    requires Shaped(s) && (s.pc == Install(tail) || s.pc == Reinstall(tail)) && tail == |s.lh|
    ensures Enabled(s, Advance) && Apply(s, Advance) == s.(lh := [], pc := if s.pc.Install? then ClearHead else Reclear)
  {
    hide Advanced, Shaped;
    AdvancedInstall(s);
  }

  /** What write_head changes besides the disk. */
  lemma HeadNext(s: State)
    requires Shaped(s) && (s.pc == WriteHead || s.pc == ClearHead)
    ensures var t := Advanced(s);
      t == s.(disk := t.disk, pc := if s.pc == WriteHead then Install(0) else Unlock,
              durable := if s.pc == WriteHead then |s.events| else s.durable)
  {
  }

  lemma UnlockNext(s: State)
    requires Shaped(s) && s.pc == Unlock
    ensures Enabled(s, Advance) && Apply(s, Advance) == s.(pc := Running)
  {
  }

  lemma UnlockClean(s: State)
    requires Good(s) && s.pc == Unlock
    ensures s.lh == []
  {
  }

  lemma GoodSpace(s: State, i: nat)
    requires Good(s) && i < |s.ops| && s.ops[i].added < MAXOPBLOCKS
    ensures |s.lh| < LOGBLOCKS && |s.ops| >= 1 && Shaped(s)
  {
    hide Inv;
    InvShape(s);
    NotFull(s, i);
  }

  lemma ReclearHolds(s: State)
    requires Good(s) && s.pc == Reclear
    ensures s.durable == |s.events| && s.lh == []
  {
  }

  lemma RestoresPromise(s: State)
    requires Good(s) && s.pc == Running && s.durable == |s.events|
    ensures s.mem == Effect(s.origin, s.events) == HomeOf(s.start, s.disk)
  {
    hide Effect, Space, History, Covered;
    assert s.events[..|s.events|] == s.events;
    OnlyHome(s.start, s.origin, s.disk, Promise(s));
  }

  /** With an empty header the home blocks on disk are all there is to say. */
  lemma OnlyHome(start: nat, origin: Disk, disk: Disk, p: Disk)
    requires Geometry(start, origin, disk) && Safe(start, origin, disk, [], p)
    ensures HomeOf(start, disk) == p
  {
    forall b | b in origin ensures Agree(b, p, disk) {
    }
    HomeMatches(start, origin, disk, p);
  }

  lemma GoodShape(s: State)
    requires Good(s)
    ensures Shaped(s) && (s.pc.CopyToLog? ==> s.pc.tail <= |s.lh|)
    ensures (s.pc.Install? || s.pc.Reinstall? ==> s.pc.tail <= |s.lh|)
    ensures s.pc != Running ==> s.ops == []
  {
  }
}
