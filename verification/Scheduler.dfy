/**
 scheduler, sched, yield, sleep, wakeup and their locks in kernel/proc.c, interleaved over
 any number of CPUs and processes.

 A step is one access to shared state. A process's spinlock is held by a CPU; swtch is two
 steps, so that a process whose registers are saved is still on its kernel stack until the
 CPU has left it.
 */
module Scheduler {
  import opened Common
  import opened Runs

  /** saved: the context in struct proc is the whole context to resume from. */
  datatype Proc = Proc(state: ProcState, lock: Option<nat>, saved: bool)

  /** Where a process's own code is, in the kernel or above it. */
  datatype Pc =
    | Entered            // swtch has just returned here; the lock is still the scheduler's
    | Free               // running, with no process's lock
    | Visiting(q: nat)   // running, with the lock of another process
    | Locked             // running, with its own lock: yield, sleep, kexit, kkill
    | Leaving            // its state is set; in sched
    | Saved              // in swtch, its registers saved

  /** Where a CPU is. */
  datatype Place =
    | Loop               // in scheduler, between processes
    | Handler(q: nat)    // in an interrupt handler, taken between processes, with q's lock
    | Chosen(p: nat)     // in scheduler, with p's lock
    | Switching(p: nat)  // in swtch to p, about to load p's registers
    | On(p: nat, pc: Pc)
    | Back(p: nat)       // in scheduler, returned from swtch to p

  datatype Cpu = Cpu(place: Place, proc: Option<nat>)

  datatype State = State(cpus: seq<Cpu>, procs: seq<Proc>)

  datatype Action =
    | Choose(c: nat, p: nat)                  // scheduler: acquire(&p->lock)
    | Skip(c: nat)                            // scheduler: release of a process that is not RUNNABLE
    | Switch(c: nat)                          // scheduler: RUNNING, c->proc, swtch saves the scheduler's registers
    | Resume(c: nat)                          // swtch loads the process's registers
    | LetGo(c: nat)                           // the process releases its lock: yield, sleep, forkret
    | LockSelf(c: nat)                        // yield, sleep, kexit, kkill: acquire(&p->lock)
    | UnlockSelf(c: nat)                      // kkill: release(&p->lock)
    | Leave(c: nat, next: ProcState)          // yield, sleep, kexit: the new state, then sched
    | Save(c: nat)                            // swtch saves the process's registers
    | Return(c: nat)                          // swtch loads the scheduler's registers
    | Finish(c: nat)                          // scheduler: c->proc = 0, release
    | Visit(c: nat, q: nat)                   // wakeup, kkill, kwait, allocproc, kfork: acquire another's lock;
                                              // or a handler's wakeup, when no process is running
    | Change(c: nat, next: ProcState)         // with another's lock: its new state
    | EndVisit(c: nat)

  // ---------------------------------------------------------------- steps

  /** The changes of state that code holding another process's lock makes. */
  predicate Allowed(was: ProcState, next: ProcState) {
    || (was == SLEEPING && next == RUNNABLE)      // wakeup, kkill
    || (was == UNUSED && next == USED)            // allocproc
    || (was == USED && next == RUNNABLE)          // kfork
    || (was == USED && next == UNUSED)            // allocproc, kfork: freeproc
    || (was == ZOMBIE && next == UNUSED)          // kwait: freeproc
  }

  predicate OnProc(s: State, c: nat) {
    c < |s.cpus| && s.cpus[c].place.On? && s.cpus[c].place.p < |s.procs|
  }

  /** The process whose lock the CPU has besides that of its own process. */
  function Visited(at: Place): Option<nat> {
    if at.Handler? then Some(at.q) else if at.On? && at.pc.Visiting? then Some(at.pc.q) else None
  }

  predicate Enabled(s: State, a: Action) {
    && a.c < |s.cpus|
    && var at := s.cpus[a.c].place;
    match a
    case Choose(_, p) => at.Loop? && p < |s.procs| && s.procs[p].lock == None
    case Skip(_) => at.Chosen? && at.p < |s.procs| && s.procs[at.p].state != RUNNABLE
    case Switch(_) => at.Chosen? && at.p < |s.procs| && s.procs[at.p].state == RUNNABLE
    case Resume(_) => at.Switching? && at.p < |s.procs|
    case LetGo(_) => OnProc(s, a.c) && at.pc == Entered
    case LockSelf(_) => OnProc(s, a.c) && at.pc == Free && s.procs[at.p].lock == None
    case UnlockSelf(_) => OnProc(s, a.c) && at.pc == Locked
    case Leave(_, next) => OnProc(s, a.c) && at.pc == Locked && (next == RUNNABLE || next == SLEEPING || next == ZOMBIE)
    case Save(_) => OnProc(s, a.c) && at.pc == Leaving
    case Return(_) => OnProc(s, a.c) && at.pc == Saved
    case Finish(_) => at.Back? && at.p < |s.procs|
    case Visit(_, q) =>
      && (at.Loop? || (OnProc(s, a.c) && at.pc == Free && q != at.p))
      && q < |s.procs| && s.procs[q].lock == None
    case Change(_, next) =>
      && Visited(at).Some? && Visited(at).value < |s.procs| && Allowed(s.procs[Visited(at).value].state, next)
      && (at.Handler? ==> next == RUNNABLE && s.procs[at.q].state == SLEEPING)
    case EndVisit(_) => Visited(at).Some? && Visited(at).value < |s.procs|
  }

  function Go(s: State, c: nat, place: Place, proc: Option<nat>, p: nat, x: Proc): State
    requires c < |s.cpus| && p < |s.procs|
  {
    State(s.cpus[c := Cpu(place, proc)], s.procs[p := x])
  }

  function Apply(s: State, a: Action): State
    requires Enabled(s, a)
  {
    var c := a.c;
    var at, mine := s.cpus[c].place, s.cpus[c].proc;
    match a
    case Choose(_, p) => Go(s, c, Chosen(p), mine, p, s.procs[p].(lock := Some(c)))
    case Skip(_) => Go(s, c, Loop, mine, at.p, s.procs[at.p].(lock := None))
    case Switch(_) => Go(s, c, Switching(at.p), Some(at.p), at.p, s.procs[at.p].(state := RUNNING))
    case Resume(_) => Go(s, c, On(at.p, Entered), mine, at.p, s.procs[at.p].(saved := false))
    case LetGo(_) => Go(s, c, On(at.p, Free), mine, at.p, s.procs[at.p].(lock := None))
    case LockSelf(_) => Go(s, c, On(at.p, Locked), mine, at.p, s.procs[at.p].(lock := Some(c)))
    case UnlockSelf(_) => Go(s, c, On(at.p, Free), mine, at.p, s.procs[at.p].(lock := None))
    case Leave(_, next) => Go(s, c, On(at.p, Leaving), mine, at.p, s.procs[at.p].(state := next))
    case Save(_) => Go(s, c, On(at.p, Saved), mine, at.p, s.procs[at.p].(saved := true))
    case Return(_) => Go(s, c, Back(at.p), mine, at.p, s.procs[at.p])
    case Finish(_) => Go(s, c, Loop, None, at.p, s.procs[at.p].(lock := None))
    case Visit(_, q) =>
      Go(s, c, if at.Loop? then Handler(q) else On(at.p, Visiting(q)), mine, q, s.procs[q].(lock := Some(c)))
    case Change(_, next) =>
      var q := Visited(at).value;
      Go(s, c, at, mine, q, s.procs[q].(state := next, saved := s.procs[q].saved || next == USED))
    case EndVisit(_) =>
      var q := Visited(at).value;
      Go(s, c, if at.Handler? then Loop else On(at.p, Free), mine, q, s.procs[q].(lock := None))
  }

  // ---------------------------------------------------------------- the invariant

  /** The process whose lock the CPU holds. */
  function Held(at: Place): Option<nat> {
    match at
    case Loop => None
    case Handler(q) => Some(q)
    case Chosen(p) => Some(p)
    case Switching(p) => Some(p)
    case On(p, pc) => if pc == Free then None else if pc.Visiting? then Some(pc.q) else Some(p)
    case Back(p) => Some(p)
  }

  /** The CPU is executing p, or is about to. */
  predicate Stack(at: Place, p: nat) {
    (at.On? || at.Switching?) && at.p == p
  }

  predicate Waiting(state: ProcState) {
    state == RUNNABLE || state == SLEEPING || state == ZOMBIE
  }

  /** What a CPU's place says about its process and about c->proc. */
  predicate CpuOk(s: State, c: nat)
    requires c < |s.cpus|
  {
    var at := s.cpus[c].place;
    && (Held(at).Some? ==> Held(at).value < |s.procs| && s.procs[Held(at).value].lock == Some(c))
    && (at.Loop? || at.Handler? || at.Chosen? ==> s.cpus[c].proc == None)
    && (at.Switching? || at.On? || at.Back? ==> s.cpus[c].proc == Some(at.p) && at.p < |s.procs|)
    && (at.Switching? ==> s.procs[at.p].state == RUNNING && s.procs[at.p].saved)
    && (at.On? && at.pc != Leaving && at.pc != Saved ==> s.procs[at.p].state == RUNNING && !s.procs[at.p].saved)
    && (at.On? && at.pc.Visiting? ==> at.pc.q != at.p)
    && (at.On? && at.pc == Leaving ==> Waiting(s.procs[at.p].state) && !s.procs[at.p].saved)
    && (at.On? && at.pc == Saved ==> Waiting(s.procs[at.p].state) && s.procs[at.p].saved)
    && (at.Back? ==> s.procs[at.p].state != RUNNING)
  }

  /** A lock is held by the CPU it names; a process that is not running has its registers saved, or is in sched. */
  predicate ProcOk(s: State, p: nat)
    requires p < |s.procs|
  {
    var x := s.procs[p];
    && (x.lock.Some? ==> x.lock.value < |s.cpus| && Held(s.cpus[x.lock.value].place) == Some(p))
    && (x.state != UNUSED && x.state != RUNNING && !x.saved ==>
      x.lock.Some? && s.cpus[x.lock.value].place == On(p, Leaving))
  }

  ghost predicate OneCpu(s: State) {
    forall c, d, p: nat {:trigger Stack(s.cpus[c].place, p), Stack(s.cpus[d].place, p)} ::
      0 <= c < |s.cpus| && 0 <= d < |s.cpus| && Stack(s.cpus[c].place, p) && Stack(s.cpus[d].place, p) ==> c == d
  }

  ghost predicate Inv(s: State) {
    && (forall c: nat {:trigger CpuOk(s, c)} :: c < |s.cpus| ==> CpuOk(s, c))
    && (forall p: nat {:trigger ProcOk(s, p)} :: p < |s.procs| ==> ProcOk(s, p))
    && OneCpu(s)
  }

  /** At boot every CPU enters scheduler; the first process is RUNNABLE with the context allocproc gave it. */
  ghost predicate Init(s: State) {
    && (forall c :: 0 <= c < |s.cpus| ==> s.cpus[c] == Cpu(Loop, None))
    && (forall p :: 0 <= p < |s.procs| ==>
      s.procs[p].lock == None && (s.procs[p].state == UNUSED || (s.procs[p].state == RUNNABLE && s.procs[p].saved)))
  }

  // ---------------------------------------------------------------- every step keeps it

  /** The process a step changes. */
  function Target(s: State, a: Action): nat
    requires Enabled(s, a)
  {
    var at := s.cpus[a.c].place;
    if a.Choose? then a.p else if a.Visit? then a.q else if a.Change? || a.EndVisit? then Visited(at).value else at.p
  }

  /** Whoever changes a process holds its lock or takes it. */
  lemma TargetLock(s: State, a: Action)
    requires Inv(s) && Enabled(s, a)
    ensures Target(s, a) < |s.procs| && |Apply(s, a).cpus| == |s.cpus| && |Apply(s, a).procs| == |s.procs|
    ensures s.procs[Target(s, a)].lock == None || s.procs[Target(s, a)].lock == Some(a.c)
    ensures a.Switch? ==> s.procs[Target(s, a)].saved
    ensures Apply(s, a).cpus == s.cpus[a.c := Apply(s, a).cpus[a.c]]
    ensures Apply(s, a).procs == s.procs[Target(s, a) := Apply(s, a).procs[Target(s, a)]]
  {
    assert CpuOk(s, a.c);
    assert ProcOk(s, Target(s, a));
  }

  /** A process that another CPU is running keeps its state and its registers. */
  lemma Running(s: State, a: Action, d: nat)
    requires Inv(s) && Enabled(s, a) && d < |s.cpus| && d != a.c
    requires Stack(s.cpus[d].place, Target(s, a)) && Target(s, a) < |s.procs|
    ensures var x, y := s.procs[Target(s, a)], Apply(s, a).procs[Target(s, a)]; y.state == x.state && y.saved == x.saved
  {
    TargetLock(s, a);
    assert CpuOk(s, d);
    assert CpuOk(s, a.c);
    assert !Stack(s.cpus[a.c].place, Target(s, a));
  }

  lemma OtherCpu(s: State, a: Action, d: nat)
    requires Inv(s) && Enabled(s, a) && d < |s.cpus| && d != a.c
    ensures CpuOk(Apply(s, a), d)
  {
    assert CpuOk(s, d);
    TargetLock(s, a);
    if Stack(s.cpus[d].place, Target(s, a)) {
      Running(s, a, d);
    }
  }

  lemma SameCpu(s: State, a: Action)
    requires Inv(s) && Enabled(s, a)
    ensures CpuOk(Apply(s, a), a.c)
  {
    TargetLock(s, a);
    assert CpuOk(s, a.c);
  }

  lemma OtherProc(s: State, a: Action, p: nat)
    requires Inv(s) && Enabled(s, a) && p < |s.procs| && p != Target(s, a)
    ensures ProcOk(Apply(s, a), p)
  {
    assert ProcOk(s, p);
    TargetLock(s, a);
  }

  lemma SameProc(s: State, a: Action)
    requires Inv(s) && Enabled(s, a) && Target(s, a) < |s.procs|
    ensures ProcOk(Apply(s, a), Target(s, a))
  {
    assert ProcOk(s, Target(s, a));
    assert CpuOk(s, a.c);
  }

  lemma StillOneCpu(s: State, a: Action)
    requires Inv(s) && Enabled(s, a)
    ensures OneCpu(Apply(s, a))
  {
    TargetLock(s, a);
    var t := Apply(s, a);
    forall c, d, p: nat | 0 <= c < |t.cpus| && 0 <= d < |t.cpus| && Stack(t.cpus[c].place, p) &&
      Stack(t.cpus[d].place, p)
      ensures c == d
    {
      assert CpuOk(s, c) && CpuOk(s, d);
      assert Stack(s.cpus[c].place, p) && Stack(s.cpus[d].place, p) ==> c == d;
    }
  }

  lemma StepKeeps(s: State, a: Action)
    requires Inv(s) && Enabled(s, a)
    ensures Inv(Apply(s, a))
  {
    hide CpuOk, ProcOk, Enabled, OneCpu;
    var t := Apply(s, a);
    TargetLock(s, a);
    forall c: nat | c < |t.cpus| ensures CpuOk(t, c) {
      if c == a.c {
        SameCpu(s, a);
      } else {
        OtherCpu(s, a, c);
      }
    }
    forall p: nat | p < |t.procs| ensures ProcOk(t, p) {
      if p == Target(s, a) {
        SameProc(s, a);
      } else {
        OtherProc(s, a, p);
      }
    }
    StillOneCpu(s, a);
  }

  // ---------------------------------------------------------------- whole runs

  ghost predicate Next(s: State, t: State) {
    exists a :: Enabled(s, a) && t == Apply(s, a)
  }

  /** ss is a run from the start. */
  ghost predicate Behavior(ss: seq<State>) {
    Run(Next, ss) && Init(ss[0])
  }

  lemma RunKeeps(ss: seq<State>, k: nat)
    requires Behavior(ss) && k < |ss|
    ensures Inv(ss[k])
  {
    forall s, t | Inv(s) && Next(s, t) ensures Inv(t) {
      var a :| Enabled(s, a) && t == Apply(s, a);
      StepKeeps(s, a);
    }
    Always(Next, Inv, ss, k);
  }

  /** In every run, at most one CPU is on a process's kernel stack or switching to it. */
  lemma NeverOnTwoCpus(ss: seq<State>, k: nat, c: nat, d: nat, p: nat)
    requires Behavior(ss) && k < |ss|
    requires var t := ss[k]; c < |t.cpus| && d < |t.cpus| && Stack(t.cpus[c].place, p) && Stack(t.cpus[d].place, p)
    ensures c == d
  {
    RunKeeps(ss, k);
  }

  /**
   In every run, a RUNNABLE process whose lock is free can be resumed: its registers are saved
   and no CPU is on its stack.
   */
  lemma RunnableIsSaved(ss: seq<State>, k: nat, p: nat)
    requires Behavior(ss) && k < |ss| && p < |ss[k].procs|
    requires var x := ss[k].procs[p]; x.state == RUNNABLE && x.lock == None
    ensures var t := ss[k]; t.procs[p].saved && forall c :: 0 <= c < |t.cpus| ==> !Stack(t.cpus[c].place, p)
  {
    RunKeeps(ss, k);
    var t := ss[k];
    assert ProcOk(t, p);
    forall c | 0 <= c < |t.cpus| ensures !Stack(t.cpus[c].place, p) {
      assert CpuOk(t, c);
    }
  }

  /** In every run swtch resumes a context that is fully saved. */
  lemma ResumesSaved(ss: seq<State>, k: nat, c: nat)
    requires Behavior(ss) && k < |ss| && c < |ss[k].cpus| && Enabled(ss[k], Resume(c))
    ensures var t := ss[k]; t.procs[t.cpus[c].place.p].saved
  {
    RunKeeps(ss, k);
    assert CpuOk(ss[k], c);
  }

  /** In every run myproc is the process whose stack the CPU is on, and sched's checks of lock and state pass. */
  lemma MyProc(ss: seq<State>, k: nat, c: nat)
    requires Behavior(ss) && k < |ss| && c < |ss[k].cpus| && ss[k].cpus[c].place.On?
    ensures var t := ss[k];
      && t.cpus[c].proc == Some(t.cpus[c].place.p) && t.cpus[c].place.p < |t.procs|
      && (t.cpus[c].place.pc == Leaving ==>
        t.procs[t.cpus[c].place.p].lock == Some(c) && t.procs[t.cpus[c].place.p].state != RUNNING)
  {
    RunKeeps(ss, k);
    assert CpuOk(ss[k], c);
  }

  // ---------------------------------------------------------------- states and locks

  /** The states a process goes through. */
  predicate Diagram(was: ProcState, next: ProcState) {
    || Allowed(was, next) || (was == RUNNABLE && next == RUNNING) || (was == RUNNING && Waiting(next))
  }

  /**
   A process's state changes only along the diagram, only under its lock, and to what was asked
   for. A CPU has at most one process's lock: that which it took last and has not released.
   */
  lemma StatesAndLocks(s: State, a: Action, p: nat)
    requires Inv(s) && Enabled(s, a) && p < |s.procs|
    ensures var t := Apply(s, a);
      p < |t.procs| && (t.procs[p].state != s.procs[p].state ==>
        Diagram(s.procs[p].state, t.procs[p].state) && s.procs[p].lock == Some(a.c))
    ensures (a.Leave? || a.Change?) && p == Target(s, a) ==> Apply(s, a).procs[p].state == a.next
    ensures a.c < |Apply(s, a).cpus| && Held(Apply(s, a).cpus[a.c].place) ==
      if a.Choose? || a.LockSelf? || a.Visit? then Some(Target(s, a))
      else if a.Skip? || a.LetGo? || a.UnlockSelf? || a.Finish? || a.EndVisit? then None
      else Held(s.cpus[a.c].place)
  {
    assert CpuOk(s, a.c);
    TargetLock(s, a);
  }

  // ---------------------------------------------------------------- turns

  /** The process that has the CPU, or is about to, or had it last. */
  function Occupant(at: Place): nat {
    match at
    case Loop => 0
    case Handler(_) => 0
    case Chosen(p) => p
    case Switching(p) => p
    case On(p, _) => p
    case Back(p) => p
  }

  /** How far a CPU is with the turn of a process; a process that is not RUNNABLE gets none. */
  function Stage(s: State, c: nat): nat
    requires c < |s.cpus|
  {
    match s.cpus[c].place
    case Loop => 0
    case Handler(_) => 0
    case Chosen(p) => if p < |s.procs| && s.procs[p].state == RUNNABLE then 1 else 0
    case Switching(_) => 2
    case On(_, pc) => if pc == Entered then 3 else if pc == Leaving then 5 else if pc == Saved then 6 else 4
    case Back(_) => 7
  }

  /**
   A CPU leaves a stage only by its own step and only for the next: a RUNNABLE process is made
   RUNNING, runs until it sets its own state, and keeps that state until its registers are
   saved and the scheduler has let go of it.
   */
  lemma NextStage(s: State, a: Action, c: nat)
    requires Inv(s) && Enabled(s, a) && c < |s.cpus|
    ensures |Apply(s, a).cpus| == |s.cpus| && |Apply(s, a).procs| == |s.procs|
    ensures var t := Apply(s, a);
      var f, g, p := Stage(s, c), Stage(t, c), Occupant(s.cpus[c].place);
      && (g == f || (a.c == c && g == (f + 1) % 8))
      && (f > 0 ==> p < |s.procs| && (g > 0 ==> Occupant(t.cpus[c].place) == p))
      && (f == 1 && g == 2 ==> t.procs[p].state == RUNNING)
      && (f == 4 && g == 5 ==> a.Leave? && t.procs[p].state == a.next)
      && (f >= 5 ==> t.procs[p].state == s.procs[p].state)
  {
    assert CpuOk(s, c);
    TargetLock(s, a);
  }

  /** At step m, the CPU goes on from stage f of p's turn. */
  ghost predicate Leaves(ss: seq<State>, m: nat, c: nat, f: nat, p: nat) {
    && 0 < m < |ss| && c < |ss[m - 1].cpus| && c < |ss[m].cpus|
    && Stage(ss[m - 1], c) == f && Stage(ss[m], c) == (f + 1) % 8 && Occupant(ss[m - 1].cpus[c].place) == p
    && (f < 7 ==> Occupant(ss[m].cpus[c].place) == p)
  }

  /** In every run, a CPU that is at another stage than before has gone to the next one in between. */
  lemma {:induction false} StageByStage(ss: seq<State>, j: nat, k: nat, c: nat)
    requires Behavior(ss) && j <= k < |ss| && c < |ss[j].cpus| && Stage(ss[j], c) > 0
    ensures |ss[k].cpus| == |ss[j].cpus|
    ensures var f, p := Stage(ss[j], c), Occupant(ss[j].cpus[c].place);
      || (Stage(ss[k], c) == f && Occupant(ss[k].cpus[c].place) == p)
      || exists m: nat :: j < m <= k && Leaves(ss, m, c, f, p)
    decreases k - j
  {
    hide Inv, Enabled, Apply, Stage, Occupant, Init;
    if j < k {
      var s, t := ss[j], ss[j + 1];
      RunKeeps(ss, j);
      assert Next(s, t);
      var a :| Enabled(s, a) && t == Apply(s, a);
      NextStage(s, a, c);
      if Stage(t, c) == Stage(s, c) {
        StageByStage(ss, j + 1, k, c);
      } else {
        assert Leaves(ss, j + 1, c, Stage(s, c), Occupant(s.cpus[c].place));
        SameCpus(ss, j + 1, k);
      }
    }
  }

  lemma {:induction false} SameCpus(ss: seq<State>, j: nat, k: nat)
    requires Behavior(ss) && j <= k < |ss|
    ensures |ss[k].cpus| == |ss[j].cpus|
    decreases k - j
  {
    if j < k {
      assert Next(ss[j], ss[j + 1]);
      SameCpus(ss, j + 1, k);
    }
  }

  /**
   In every run, a CPU that has chosen a RUNNABLE process is not back in the scheduler's loop
   before that process has run on it, has given it up, and has its registers saved.
   */
  lemma WholeTurn(ss: seq<State>, j: nat, k: nat, c: nat)
    requires Behavior(ss) && j <= k < |ss| && c < |ss[j].cpus| && Stage(ss[j], c) == 1
    requires c < |ss[k].cpus| && ss[k].cpus[c].place == Loop
    ensures var p := Occupant(ss[j].cpus[c].place);
      exists m: nat, e: nat :: j < m < e < k && Leaves(ss, m, c, 2, p) && Leaves(ss, e, c, 5, p)
  {
    hide Behavior, Init, Occupant;
    assert Stage(ss[k], c) == 0;
    hide Stage;
    var p := Occupant(ss[j].cpus[c].place);
    StageByStage(ss, j, k, c);
    var m1: nat :| j < m1 <= k && Leaves(ss, m1, c, 1, p);
    StageByStage(ss, m1, k, c);
    var m2: nat :| m1 < m2 <= k && Leaves(ss, m2, c, 2, p);
    StageByStage(ss, m2, k, c);
    var m3: nat :| m2 < m3 <= k && Leaves(ss, m3, c, 3, p);
    StageByStage(ss, m3, k, c);
    var m4: nat :| m3 < m4 <= k && Leaves(ss, m4, c, 4, p);
    StageByStage(ss, m4, k, c);
    var m5: nat :| m4 < m5 <= k && Leaves(ss, m5, c, 5, p);
  }
}
