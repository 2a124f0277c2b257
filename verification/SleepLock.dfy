/**
 kernel/sleeplock.c with sleep and wakeup of kernel/proc.c under it: one sleep lock, any
 number of processes, every interleaving.

 A step is one access to shared state, or one acquire or release of a spinlock. Processes
 are named by their pid. A process that is off its CPU has its own lock released by the
 scheduler, and is resumed holding it.
 */
module SleepLock {
  import opened Common
  import opened Runs

  datatype Chan = Nothing | ThisLock | Other

  /** Where a process is in acquiresleep, releasesleep, sleep and wakeup. */
  datatype Pc =
    | Out                  // neither holds nor wants the sleep lock
    | Acquiring            // acquiresleep, or back from sleep: acquire(&lk->lk)
    | Testing              // has lk->lk, at the while
    | Taken                // has set locked and pid; has lk->lk
    | Owner                // holds the sleep lock
    | Sleep1               // in sleep: acquire(&p->lock); has lk->lk
    | Sleep2               // has both: release(lk)
    | Sleep3               // has its own lock: chan, SLEEPING
    | Sleep4               // in sched, with its own lock
    | Asleep               // off the CPU
    | Woken                // back from sched, with its own lock
    | Releasing            // releasesleep: acquire(&lk->lk)
    | Clearing             // has lk->lk: locked = 0, pid = 0
    | Waking(i: nat)       // in wakeup, before process i; has lk->lk
    | WakingAt(i: nat)     // in wakeup, with process i's lock; has lk->lk
    | Released             // has lk->lk: release(&lk->lk)

  /** sleeping: p->state == SLEEPING; lock: who holds p->lock. */
  datatype Proc = Proc(pc: Pc, sleeping: bool, chan: Chan, lock: Option<nat>)

  datatype State = State(spin: Option<nat>, locked: bool, pid: nat, procs: seq<Proc>)

  datatype Action =
    | Want(p: nat)         // calls acquiresleep
    | GetSpin(p: nat)      // acquire(&lk->lk)
    | Test(p: nat)         // the while's condition, and what follows it
    | DropTaken(p: nat)    // acquiresleep: release(&lk->lk)
    | LockSelf(p: nat)     // sleep: acquire(&p->lock)
    | DropSpin(p: nat)     // sleep: release(lk)
    | GoSleep(p: nat)      // sleep: chan, SLEEPING
    | SwitchOut(p: nat)    // sched; the scheduler releases p->lock
    | SwitchIn(p: nat)     // the scheduler finds p RUNNABLE and resumes it
    | Tidy(p: nat)         // sleep: chan = 0, release(&p->lock)
    | Done(p: nat)         // calls releasesleep
    | Clear(p: nat)        // locked = 0, pid = 0
    | WakeLock(p: nat)     // wakeup: acquire of process i's lock, or past oneself
    | WakeTest(p: nat)     // wakeup: the test, RUNNABLE, release
    | DropReleased(p: nat) // releasesleep: release(&lk->lk)
    | Elsewhere(p: nat)    // sleeps on another channel
    | Disturb(p: nat)      // kkill, or a wakeup on another channel, makes p RUNNABLE

  predicate Enabled(s: State, a: Action) {
    && a.p < |s.procs|
    && var x := s.procs[a.p];
    match a
    case Want(_) => x.pc == Out && !x.sleeping
    case GetSpin(_) => (x.pc == Acquiring || x.pc == Releasing) && s.spin == None
    case Test(_) => x.pc == Testing
    case DropTaken(_) => x.pc == Taken
    case LockSelf(_) => x.pc == Sleep1 && x.lock == None
    case DropSpin(_) => x.pc == Sleep2
    case GoSleep(_) => x.pc == Sleep3
    case SwitchOut(_) => x.pc == Sleep4
    case SwitchIn(_) => x.pc == Asleep && !x.sleeping && x.lock == None
    case Tidy(_) => x.pc == Woken
    case Done(_) => x.pc == Owner && !x.sleeping
    case Clear(_) => x.pc == Clearing
    case WakeLock(_) => x.pc.Waking? && (x.pc.i < |s.procs| && x.pc.i != a.p ==> s.procs[x.pc.i].lock == None)
    case WakeTest(_) => x.pc.WakingAt? && x.pc.i < |s.procs|
    case DropReleased(_) => x.pc == Released
    case Elsewhere(_) => (x.pc == Out || x.pc == Owner) && !x.sleeping && x.lock == None
    case Disturb(_) => x.sleeping && x.lock == None
  }

  function Put(s: State, p: nat, x: Proc): State
    requires p < |s.procs|
  {
    s.(procs := s.procs[p := x])
  }

  function Apply(s: State, a: Action): State
    requires Enabled(s, a)
  {
    var p := a.p;
    var x := s.procs[p];
    match a
    case Want(_) => Put(s, p, x.(pc := Acquiring))
    case GetSpin(_) => Put(s, p, x.(pc := if x.pc == Acquiring then Testing else Clearing)).(spin := Some(p))
    case Test(_) => if s.locked then Put(s, p, x.(pc := Sleep1))
      else Put(s, p, x.(pc := Taken)).(locked := true, pid := p)
    case DropTaken(_) => Put(s, p, x.(pc := Owner)).(spin := None)
    case LockSelf(_) => Put(s, p, x.(pc := Sleep2, lock := Some(p)))
    case DropSpin(_) => Put(s, p, x.(pc := Sleep3)).(spin := None)
    case GoSleep(_) => Put(s, p, x.(pc := Sleep4, chan := ThisLock, sleeping := true))
    case SwitchOut(_) => Put(s, p, x.(pc := Asleep, lock := None))
    case SwitchIn(_) => Put(s, p, x.(pc := Woken, lock := Some(p)))
    case Tidy(_) => Put(s, p, x.(pc := Acquiring, chan := Nothing, lock := None))
    case Done(_) => Put(s, p, x.(pc := Releasing))
    case Clear(_) => Put(s, p, x.(pc := Waking(0))).(locked := false, pid := 0)
    case WakeLock(_) =>
      if x.pc.i >= |s.procs| then Put(s, p, x.(pc := Released))
      else if x.pc.i == p then Put(s, p, x.(pc := Waking(x.pc.i + 1)))
      else Put(Put(s, p, x.(pc := WakingAt(x.pc.i))), x.pc.i, s.procs[x.pc.i].(lock := Some(p)))
    case WakeTest(_) =>
      var y := s.procs[x.pc.i];
      var t := Put(s, p, x.(pc := Waking(x.pc.i + 1)));
      Put(t, x.pc.i, y.(lock := None, sleeping := y.sleeping && y.chan != ThisLock))
    case DropReleased(_) => Put(s, p, x.(pc := Out)).(spin := None)
    case Elsewhere(_) => Put(s, p, x.(sleeping := true, chan := Other))
    case Disturb(_) => Put(s, p, x.(sleeping := false))
  }

  // ---------------------------------------------------------------- the invariant

  predicate HasSpin(pc: Pc) {
    pc.Testing? || pc.Taken? || pc.Sleep1? || pc.Sleep2? || pc.Clearing? || pc.Waking? || pc.WakingAt? || pc.Released?
  }

  predicate HasSelf(pc: Pc) {
    pc.Sleep2? || pc.Sleep3? || pc.Sleep4? || pc.Woken?
  }

  predicate Owns(pc: Pc) {
    pc.Taken? || pc.Owner? || pc.Releasing? || pc.Clearing?
  }

  /** Asleep on the lock, or past the point where it could notice that the lock is free. */
  predicate Committed(x: Proc) {
    x.pc.Sleep3? || (x.pc.Sleep4? && x.sleeping) || (x.pc.Asleep? && x.sleeping)
  }

  /** Some process is in wakeup and has process p still before it. */
  predicate Coming(s: State, p: nat) {
    && s.spin.Some? && s.spin.value < |s.procs|
    && var pc := s.procs[s.spin.value].pc;
       (pc.Waking? || pc.WakingAt?) && pc.i <= p
  }

  /** Where a process is says which spinlocks it has, and which others have its own. */
  ghost predicate LocksOk(s: State, p: nat)
    requires p < |s.procs|
  {
    var x := s.procs[p];
    && (s.spin == Some(p) <==> HasSpin(x.pc))
    && (x.lock == Some(p) <==> HasSelf(x.pc))
    && (x.lock.Some? && x.lock.value != p ==> x.lock.value < |s.procs| && s.procs[x.lock.value].pc == WakingAt(p))
    && (x.pc.WakingAt? ==> x.pc.i < |s.procs| && x.pc.i != p && s.procs[x.pc.i].lock == Some(p))
  }

  ghost predicate SleepOk(s: State, p: nat)
    requires p < |s.procs|
  {
    var x := s.procs[p];
    && (Owns(x.pc) ==> s.locked && s.pid == p)
    && (x.pc.Sleep1? || x.pc.Sleep2? ==> s.locked)
    && (Committed(x) ==> s.locked || Coming(s, p))
    && (x.pc.Sleep4? || x.pc.Asleep? ==> x.chan == ThisLock)
    && (x.sleeping ==> x.pc.Out? || x.pc.Owner? || x.pc.Sleep4? || x.pc.Asleep?)
    && (x.sleeping && (x.pc.Out? || x.pc.Owner?) ==> x.chan == Other)
  }

  ghost predicate ProcOk(s: State, p: nat)
    requires p < |s.procs|
  {
    LocksOk(s, p) && SleepOk(s, p)
  }

  ghost predicate Inv(s: State) {
    && (forall p: nat {:trigger ProcOk(s, p)} :: p < |s.procs| ==> ProcOk(s, p))
    && (s.spin.Some? ==> s.spin.value < |s.procs|)
    && (s.locked ==> s.pid < |s.procs| && Owns(s.procs[s.pid].pc))
  }

  /** initsleeplock, with every process elsewhere. */
  ghost predicate Init(s: State) {
    && s.spin == None && !s.locked
    && forall p :: 0 <= p < |s.procs| ==> s.procs[p].pc == Out && !s.procs[p].sleeping && s.procs[p].lock == None
  }

  // ---------------------------------------------------------------- every step keeps it

  lemma Facts(s: State, p: nat)
    requires Inv(s) && p < |s.procs|
    ensures ProcOk(s, p)
  {
  }

  predicate InWakeup(a: Action) {
    a.WakeLock? || a.WakeTest?
  }

  lemma SelfLocks(s: State, a: Action)
    requires Inv(s) && Enabled(s, a) && !InWakeup(a)
    ensures LocksOk(Apply(s, a), a.p)
  {
    hide Inv, SleepOk;
    Facts(s, a.p);
  }

  lemma SelfSleep(s: State, a: Action)
    requires Inv(s) && Enabled(s, a) && !InWakeup(a)
    ensures SleepOk(Apply(s, a), a.p)
  {
    hide Inv;
    Facts(s, a.p);
  }

  lemma OtherLocks(s: State, a: Action, q: nat)
    requires Inv(s) && Enabled(s, a) && !InWakeup(a) && q < |s.procs| && q != a.p
    ensures LocksOk(Apply(s, a), q)
  {
    hide Inv, SleepOk;
    Facts(s, a.p);
    Facts(s, q);
  }

  /** Nobody else's commitment to sleep is affected, unless the lock is being released, with wakeup to come. */
  lemma OtherSleep(s: State, a: Action, q: nat)
    requires Inv(s) && Enabled(s, a) && !InWakeup(a) && q < |s.procs| && q != a.p
    ensures SleepOk(Apply(s, a), q)
  {
    hide Inv;
    Facts(s, a.p);
    Facts(s, q);
  }

  /** A step of wakeup: what it passes is not committed to sleep any more. */
  lemma KeepsWakeLock(s: State, p: nat, q: nat)
    requires Inv(s) && Enabled(s, WakeLock(p)) && q < |s.procs|
    ensures ProcOk(Apply(s, WakeLock(p)), q)
  {
    hide Inv;
    Facts(s, p);
    Facts(s, q);
  }

  lemma KeepsWakeTest(s: State, p: nat, q: nat)
    requires Inv(s) && Enabled(s, WakeTest(p)) && q < |s.procs|
    ensures ProcOk(Apply(s, WakeTest(p)), q)
  {
    hide Inv;
    Facts(s, p);
    Facts(s, q);
    Facts(s, s.procs[p].pc.i);
  }

  lemma KeepsRest(s: State, a: Action)
    requires Inv(s) && Enabled(s, a)
    ensures var t := Apply(s, a);
      && (t.spin.Some? ==> t.spin.value < |t.procs|)
      && (t.locked ==> t.pid < |t.procs| && Owns(t.procs[t.pid].pc)) && |t.procs| == |s.procs|
  {
    assert ProcOk(s, a.p);
  }

  lemma StepKeeps(s: State, a: Action)
    requires Inv(s) && Enabled(s, a)
    ensures Inv(Apply(s, a))
  {
    hide LocksOk, SleepOk, Enabled, Apply;
    KeepsRest(s, a);
    var t := Apply(s, a);
    forall q: nat | q < |t.procs| ensures ProcOk(t, q) {
      if a.WakeLock? {
        KeepsWakeLock(s, a.p, q);
      } else if a.WakeTest? {
        KeepsWakeTest(s, a.p, q);
      } else if q == a.p {
        SelfLocks(s, a);
        SelfSleep(s, a);
      } else {
        OtherLocks(s, a, q);
        OtherSleep(s, a, q);
      }
    }
  }

  // ---------------------------------------------------------------- whole runs

  ghost predicate Next(s: State, t: State) {
    exists a :: Enabled(s, a) && t == Apply(s, a)
  }

  /** ss is a run from the start. */
  ghost predicate Behavior(ss: seq<State>) {
    Run(Next, ss) && Init(ss[0])
  }

  lemma RunKeeps(ss: seq<State>, k: nat)
    requires Behavior(ss) && k < |ss|
    ensures Inv(ss[k])
  {
    forall s, t | Inv(s) && Next(s, t) ensures Inv(t) {
      var a :| Enabled(s, a) && t == Apply(s, a);
      StepKeeps(s, a);
    }
    Always(Next, Inv, ss, k);
  }

  /** In every run at most one process holds the sleep lock. */
  lemma MutualExclusion(ss: seq<State>, k: nat, p: nat, q: nat)
    requires Behavior(ss) && k < |ss|
    requires var t := ss[k]; p < |t.procs| && q < |t.procs| && Owns(t.procs[p].pc) && Owns(t.procs[q].pc)
    ensures p == q
  {
    RunKeeps(ss, k);
    assert ProcOk(ss[k], p) && ProcOk(ss[k], q);
  }

  /**
   In every run, when lk->lk is free, a process asleep on the lock, or committed to sleep
   while it still holds its own lock, means that the sleep lock is held: its release is
   still to come, and will find the sleeper.
   */
  lemma NoLostWakeup(ss: seq<State>, k: nat, p: nat)
    requires Behavior(ss) && k < |ss| && ss[k].spin == None && p < |ss[k].procs| && Committed(ss[k].procs[p])
    ensures ss[k].locked && ss[k].pid < |ss[k].procs| && Owns(ss[k].procs[ss[k].pid].pc)
  {
    RunKeeps(ss, k);
    assert ProcOk(ss[k], p);
  }

  /** In every run, holdingsleep answers for its caller exactly. */
  lemma HoldingSleep(ss: seq<State>, k: nat, p: nat)
    requires Behavior(ss) && k < |ss| && p < |ss[k].procs|
    ensures var t := ss[k]; t.locked && t.pid == p <==> Owns(t.procs[p].pc)
  {
    RunKeeps(ss, k);
    assert ProcOk(ss[k], p);
  }

  /** In every run, wakeup on its way out has left nobody committed to sleep behind, so far. */
  lemma WakeupMissesNobody(ss: seq<State>, k: nat, p: nat, q: nat)
    requires Behavior(ss) && k < |ss| && p < |ss[k].procs| && ss[k].procs[p].pc.Waking?
    requires q < |ss[k].procs| && q < ss[k].procs[p].pc.i && !ss[k].locked
    ensures !Committed(ss[k].procs[q])
  {
    RunKeeps(ss, k);
    assert ProcOk(ss[k], p) && ProcOk(ss[k], q);
  }

  // ---------------------------------------------------------------- in and out

  /** The way through acquiresleep and releasesleep. Waiting, however often one sleeps, is one stage of it. */
  function Stage(pc: Pc): nat {
    match pc
    case Out => 0
    case Taken => 2
    case Owner => 3
    case Releasing => 4
    case Clearing => 5
    case Waking(_) => 6
    case WakingAt(_) => 6
    case Released => 6
    case _ => 1
  }

  /**
   A process leaves its stage only by its own step, and only for the next one: from waiting by
   finding the lock free and taking it, from clearing by opening it, and from wakeup when that
   has looked at every process.
   */
  lemma NextStage(s: State, a: Action, p: nat)
    requires Inv(s) && Enabled(s, a) && p < |s.procs|
    ensures var t := Apply(s, a);
      var f, g := Stage(s.procs[p].pc), Stage(t.procs[p].pc);
      || g == f
      || (&& a.p == p && g == (f + 1) % 7
          && (f == 1 ==> !s.locked && t.locked && t.pid == p) && (f == 5 ==> !t.locked)
          && (f == 6 ==> s.procs[p].pc == Released))
  {
    hide SleepOk;
    Facts(s, a.p);
    Facts(s, p);
  }

  /** wakeup goes on from one process to the next, and ends after the last. */
  lemma WakeupInOrder(s: State, a: Action, p: nat)
    requires Inv(s) && Enabled(s, a) && p < |s.procs| && Stage(s.procs[p].pc) == 6
    ensures var pc, pc' := s.procs[p].pc, Apply(s, a).procs[p].pc;
      || pc' == pc || (pc.Waking? && pc'.WakingAt? && pc'.i == pc.i)
      || (pc'.Waking? && !pc.Released? && pc'.i == pc.i + 1)
      || (pc.Waking? && pc.i >= |s.procs| && pc' == Released) || (pc == Released && pc' == Out)
  {
    hide SleepOk;
    Facts(s, a.p);
    Facts(s, p);
  }

  /** At step m, p goes from stage f to the next. */
  ghost predicate Leaves(ss: seq<State>, m: nat, p: nat, f: nat) {
    && 0 < m < |ss| && p < |ss[m - 1].procs| && p < |ss[m].procs|
    && Stage(ss[m - 1].procs[p].pc) == f && Stage(ss[m].procs[p].pc) == (f + 1) % 7
  }

  /** In every run, whoever is in another stage than before has gone to the next one in between. */
  lemma {:induction false} StageByStage(ss: seq<State>, j: nat, k: nat, p: nat)
    requires Behavior(ss) && j <= k < |ss| && p < |ss[j].procs|
    ensures |ss[k].procs| == |ss[j].procs|
    ensures var f := Stage(ss[j].procs[p].pc);
      Stage(ss[k].procs[p].pc) == f || exists m: nat :: j < m <= k && Leaves(ss, m, p, f)
    decreases k - j
  {
    hide Inv, Enabled, Apply, Stage;
    if j < k {
      var s, t := ss[j], ss[j + 1];
      RunKeeps(ss, j);
      assert Next(s, t);
      var a :| Enabled(s, a) && t == Apply(s, a);
      KeepsRest(s, a);
      NextStage(s, a, p);
      StageByStage(ss, j + 1, k, p);
      if Stage(t.procs[p].pc) != Stage(s.procs[p].pc) {
        assert Leaves(ss, j + 1, p, Stage(s.procs[p].pc));
      }
    }
  }

  /** In every run, whoever has called acquiresleep is not back out of it before it has held the lock. */
  lemma OutOnlyAsOwner(ss: seq<State>, j: nat, k: nat, p: nat)
    requires Behavior(ss) && j <= k < |ss| && p < |ss[j].procs| && Stage(ss[j].procs[p].pc) == 1
    requires p < |ss[k].procs| && ss[k].procs[p].pc == Out
    ensures exists m: nat ::
      j < m < k && p < |ss[m].procs| && ss[m].procs[p].pc == Owner && ss[m].locked && ss[m].pid == p
  {
    hide Behavior, Init;
    StageByStage(ss, j, k, p);
    var i: nat :| j < i <= k && Leaves(ss, i, p, 1);
    StageByStage(ss, i, k, p);
    var m: nat :| i < m <= k && Leaves(ss, m, p, 2);
    HoldingSleep(ss, m, p);
  }

  /**
   In every run, whoever has called releasesleep is not back out of it before it has opened the
   lock, and only from the end of wakeup's loop.
   */
  lemma OutOnlyAfterOpening(ss: seq<State>, j: nat, k: nat, p: nat)
    requires Behavior(ss) && j <= k < |ss| && p < |ss[j].procs| && ss[j].procs[p].pc == Releasing
    requires p < |ss[k].procs| && ss[k].procs[p].pc == Out
    ensures exists m: nat :: j < m < k && Leaves(ss, m, p, 5) && ss[m - 1].locked && !ss[m].locked
    ensures exists m: nat :: j < m <= k && Leaves(ss, m, p, 6) && ss[m - 1].procs[p].pc == Released
  {
    hide Behavior, Init;
    StageByStage(ss, j, k, p);
    var i: nat :| j < i <= k && Leaves(ss, i, p, 4);
    StageByStage(ss, i, k, p);
    var m: nat :| i < m <= k && Leaves(ss, m, p, 5);
    Opens(ss, m, p);
    StageByStage(ss, m, k, p);
    var e: nat :| m < e <= k && Leaves(ss, e, p, 6);
    Opens(ss, e, p);
  }

  lemma Opens(ss: seq<State>, m: nat, p: nat)
    requires Behavior(ss) && (Leaves(ss, m, p, 5) || Leaves(ss, m, p, 6))
    ensures Leaves(ss, m, p, 5) ==> ss[m - 1].locked && !ss[m].locked
    ensures Leaves(ss, m, p, 6) ==> ss[m - 1].procs[p].pc == Released
  {
    hide Apply, Enabled, Inv, Init;
    RunKeeps(ss, m - 1);
    var s, t := ss[m - 1], ss[m - 1 + 1];
    assert Next(s, t);
    var a :| Enabled(s, a) && t == Apply(s, a);
    HoldingSleep(ss, m - 1, p);
    NextStage(s, a, p);
  }

  // ---------------------------------------------------------------- progress

  /** At most so many steps of its own does a process have before it owns the lock, is asleep, or is out. */
  function Left(pc: Pc, n: nat): nat {
    match pc
    case Out => 0
    case Woken => 7
    case Acquiring => 6
    case Testing => 5
    case Sleep1 => 4
    case Sleep2 => 3
    case Sleep3 => 2
    case Sleep4 => 1
    case Asleep => 0
    case Taken => 1
    case Owner => 0
    case Releasing => 4 + 2 * n
    case Clearing => 3 + 2 * n
    case Waking(i) => if i < n then 2 + 2 * (n - i) else 2
    case WakingAt(i) => if i < n then 1 + 2 * (n - i) else 2
    case Released => 1
  }

  /** Every step inside acquiresleep and releasesleep brings the process nearer to its end; what is asleep stays so. */
  lemma StepsRunOut(s: State, a: Action)
    requires Inv(s) && Enabled(s, a)
    ensures var n, x, y := |s.procs|, s.procs[a.p], Apply(s, a).procs[a.p];
      if a.Elsewhere? || a.Disturb? then y.pc == x.pc && y.sleeping != x.sleeping
      else if a.Want? then y.pc == Acquiring
      else if a.Done? then y.pc == Releasing
      else if a.SwitchIn? then y.pc == Woken && y.lock == Some(a.p)
      else Left(y.pc, n) < Left(x.pc, n)
  {
    hide SleepOk;
    Facts(s, a.p);
  }

  /** wakeup wakes those who sleep on the lock and nobody else. */
  lemma OthersSleepOn(s: State, a: Action, q: nat)
    requires Inv(s) && Enabled(s, a) && q < |s.procs| && q != a.p
    ensures var x, y := s.procs[q], Apply(s, a).procs[q];
      && y.pc == x.pc && y.chan == x.chan
      && (y.sleeping != x.sleeping <==> a.WakeTest? && s.procs[a.p].pc.i == q && x.sleeping && x.chan == ThisLock)
  {
    hide SleepOk;
    Facts(s, a.p);
  }
}
