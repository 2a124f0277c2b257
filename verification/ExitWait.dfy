/**
 kfork, kexit, reparent, kwait, and sleep and wakeup as they use them, of kernel/proc.c:
 any number of processes, every interleaving.

 A critical section that makes one access to shared state is one step, which waits for the
 locks it takes. What remains visible is wait_lock, and a process's own lock while sleep or
 kexit holds it across the switch to the scheduler, which releases it.
 */
module ExitWait {
  import opened Common
  import opened Runs

  datatype Chan = Nothing | OfProc(q: nat) | Other

  datatype Pc =
    | User                            // in none of the code below
    | Fork1(np: nat)                  // kfork: np is allocated
    | Fork2(np: nat)                  // np->parent is set
    | Reparent(i: nat)                // kexit, in reparent before process i; has wait_lock
    | WakeInit(i: nat, j: nat)        // reparent's wakeup(initproc) for process i, before process j
    | WakeParent(j: nat)              // kexit's wakeup(p->parent), before process j
    | Exit1                           // acquire(&p->lock), state = ZOMBIE
    | Exit2                           // release(&wait_lock); has its own lock too
    | Exit3                           // in sched, with its own lock
    | Dead                            // off the CPU for good
    | WaitStart                       // kwait: acquire(&wait_lock)
    | Scan(i: nat, kids: bool)        // in the scan before process i; has wait_lock
    | Sleep1                          // sleep(p, &wait_lock): acquire(&p->lock), release(&wait_lock)
    | Sleep2                          // has its own lock; chan = p, SLEEPING
    | Sleep3                          // in sched, with its own lock
    | Asleep                          // off the CPU
    | Woken                           // back from sched, with its own lock

  /** maker is the process whose kfork has this one in hand. */
  datatype Proc = Proc(state: ProcState, parent: Option<nat>, chan: Chan, pc: Pc, maker: Option<nat>)

  datatype State = State(wait: Option<nat>, init: nat, procs: seq<Proc>)

  datatype Action =
    | Dispatch(p: nat)                // scheduler
    | Yield(p: nat)
    | SleepOther(p: nat)              // sleep on a channel that is no process
    | WakeOther(p: nat)               // kkill, or a wakeup on another channel
    | ForkAlloc(p: nat, np: nat)      // allocproc
    | ForkFail(p: nat)                // uvmcopy failed: freeproc
    | ForkParent(p: nat)
    | ForkStart(p: nat)
    | ExitStart(p: nat)               // kexit: acquire(&wait_lock)
    | ReparentStep(p: nat)
    | WakeInitStep(p: nat)
    | WakeParentStep(p: nat)
    | ExitZombie(p: nat)
    | ExitUnwait(p: nat)
    | ExitGone(p: nat)
    | WaitCall(p: nat)
    | WaitLock(p: nat)
    | ScanStep(p: nat, failed: bool)  // failed: copyout of the exit status
    | ScanEnd(p: nat, killed: bool)
    | SleepSwap(p: nat)
    | SleepSet(p: nat)
    | SleepOut(p: nat)
    | SleepIn(p: nat)
    | SleepTidy(p: nat)

  // ---------------------------------------------------------------- steps

  /** Has its own lock, so that whoever wants it waits. */
  predicate HasSelf(pc: Pc) {
    pc.Exit2? || pc.Exit3? || pc.Sleep2? || pc.Sleep3? || pc.Woken?
  }

  predicate HasWait(pc: Pc) {
    pc.Reparent? || pc.WakeInit? || pc.WakeParent? || pc.Exit1? || pc.Exit2? || pc.Scan? || pc.Sleep1?
  }

  /** Without spinlocks and not in sched, so that it can be preempted. */
  predicate Loose(pc: Pc) {
    pc.User? || pc.Fork1? || pc.Fork2? || pc.WaitStart?
  }

  predicate LockFree(s: State, q: nat) {
    q < |s.procs| ==> !HasSelf(s.procs[q].pc)
  }

  predicate Ready(s: State, p: nat, pc: Pc, a: Action) {
    match a
    case Dispatch(_) => Loose(pc)
    case Yield(_) => Loose(pc)
    case SleepOther(_) => pc.User?
    case WakeOther(_) => !HasSelf(pc)
    case ForkAlloc(_, np) => pc.User? && np < |s.procs| && np != p && s.procs[np].state == UNUSED
    case ForkFail(_) => pc.Fork1? && pc.np < |s.procs|
    case ForkParent(_) => pc.Fork1? && pc.np < |s.procs| && s.wait == None
    case ForkStart(_) => pc.Fork2? && pc.np < |s.procs|
    case ExitStart(_) => pc.User? && p != s.init && s.wait == None
    case ReparentStep(_) => pc.Reparent?
    case WakeInitStep(_) => pc.WakeInit? && (pc.j != p ==> LockFree(s, pc.j))
    case WakeParentStep(_) => pc.WakeParent? && (pc.j != p ==> LockFree(s, pc.j))
    case ExitZombie(_) => pc.Exit1?
    case ExitUnwait(_) => pc.Exit2?
    case ExitGone(_) => pc.Exit3?
    case WaitCall(_) => pc.User?
    case WaitLock(_) => pc.WaitStart? && s.wait == None
    case ScanStep(_, _) => pc.Scan? && pc.i < |s.procs| && (s.procs[pc.i].parent == Some(p) ==> LockFree(s, pc.i))
    case ScanEnd(_, _) => pc.Scan? && pc.i >= |s.procs|
    case SleepSwap(_) => pc.Sleep1?
    case SleepSet(_) => pc.Sleep2?
    case SleepOut(_) => pc.Sleep3?
    case SleepIn(_) => pc.Asleep?
    case SleepTidy(_) => pc.Woken?
  }

  predicate Enabled(s: State, a: Action) {
    && a.p < |s.procs| && Ready(s, a.p, s.procs[a.p].pc, a)
    && var state := s.procs[a.p].state;
       if a.Dispatch? || a.SleepIn? then state == RUNNABLE
       else if a.WakeOther? || a.SleepOut? then state == SLEEPING
       else if a.ExitUnwait? || a.ExitGone? then state == ZOMBIE
       else state == RUNNING
  }

  /** wakeup's body for process y. */
  function Awake(y: Proc, chan: Chan): Proc {
    if y.state == SLEEPING && y.chan == chan then y.(state := RUNNABLE) else y
  }

  /** What freeproc leaves. */
  const BLANK := Proc(UNUSED, None, Nothing, User, None)

  /** The acting process and wait_lock after a step, and one more process the step changes. */
  datatype Effect = Effect(self: Proc, wait: Option<nat>, other: nat, that: Proc)

  function Solo(p: nat, x: Proc, wait: Option<nat>): Effect {
    Effect(x, wait, p, x)
  }

  function Outcome(s: State, a: Action): Effect
    requires Enabled(s, a)
  {
    var n, p, w := |s.procs|, a.p, s.wait;
    var x := s.procs[p];
    match a
    case Dispatch(_) => Solo(p, x.(state := RUNNING), w)
    case Yield(_) => Solo(p, x.(state := RUNNABLE), w)
    case SleepOther(_) => Solo(p, x.(state := SLEEPING, chan := Other), w)
    case WakeOther(_) => Solo(p, x.(state := RUNNABLE), w)
    case ForkAlloc(_, np) => Effect(x.(pc := Fork1(np)), w, np, s.procs[np].(state := USED, maker := Some(p)))
    case ForkFail(_) => Effect(x.(pc := User), w, x.pc.np, BLANK)
    case ForkParent(_) => Effect(x.(pc := Fork2(x.pc.np)), w, x.pc.np, s.procs[x.pc.np].(parent := Some(p)))
    case ForkStart(_) => Effect(x.(pc := User), w, x.pc.np, s.procs[x.pc.np].(state := RUNNABLE, maker := None))
    case ExitStart(_) => Solo(p, x.(pc := Reparent(0)), Some(p))
    case ReparentStep(_) =>
      var i := x.pc.i;
      if i >= n then Solo(p, x.(pc := WakeParent(0)), w)
      else if s.procs[i].parent != Some(p) then Solo(p, x.(pc := Reparent(i + 1)), w)
      else if i == p then Solo(p, x.(pc := WakeInit(i, 0), parent := Some(s.init)), w)
      else Effect(x.(pc := WakeInit(i, 0)), w, i, s.procs[i].(parent := Some(s.init)))
    case WakeInitStep(_) =>
      var j := x.pc.j;
      if j >= n then Solo(p, x.(pc := Reparent(x.pc.i + 1)), w)
      else if j == p then Solo(p, x.(pc := WakeInit(x.pc.i, j + 1)), w)
      else Effect(x.(pc := WakeInit(x.pc.i, j + 1)), w, j, Awake(s.procs[j], OfProc(s.init)))
    case WakeParentStep(_) =>
      var j := x.pc.j;
      if j >= n then Solo(p, x.(pc := Exit1), w)
      else if j == p then Solo(p, x.(pc := WakeParent(j + 1)), w)
      else Effect(x.(pc := WakeParent(j + 1)), w, j,
        Awake(s.procs[j], if x.parent.Some? then OfProc(x.parent.value) else Nothing))
    case ExitZombie(_) => Solo(p, x.(pc := Exit2, state := ZOMBIE), w)
    case ExitUnwait(_) => Solo(p, x.(pc := Exit3), None)
    case ExitGone(_) => Solo(p, x.(pc := Dead), w)
    case WaitCall(_) => Solo(p, x.(pc := WaitStart), w)
    case WaitLock(_) => Solo(p, x.(pc := Scan(0, false)), Some(p))
    case ScanStep(_, failed) =>
      var i := x.pc.i;
      if s.procs[i].parent != Some(p) then Solo(p, x.(pc := Scan(i + 1, x.pc.kids)), w)
      else if s.procs[i].state != ZOMBIE then Solo(p, x.(pc := Scan(i + 1, true)), w)
      else if failed then Solo(p, x.(pc := User), None)
      else Effect(x.(pc := User), None, i, BLANK)
    case ScanEnd(_, killed) => if !x.pc.kids || killed then Solo(p, x.(pc := User), None)
      else Solo(p, x.(pc := Sleep1), w)
    case SleepSwap(_) => Solo(p, x.(pc := Sleep2), None)
    case SleepSet(_) => Solo(p, x.(pc := Sleep3, chan := OfProc(p), state := SLEEPING), w)
    case SleepOut(_) => Solo(p, x.(pc := Asleep), w)
    case SleepIn(_) => Solo(p, x.(pc := Woken, state := RUNNING), w)
    case SleepTidy(_) => Solo(p, x.(pc := WaitStart, chan := Nothing), w)
  }

  function Do(s: State, p: nat, e: Effect): State
    requires p < |s.procs| && e.other < |s.procs|
  {
    s.(wait := e.wait, procs := s.procs[p := e.self][e.other := e.that])
  }

  function Apply(s: State, a: Action): State
    requires Enabled(s, a)
  {
    Do(s, a.p, Outcome(s, a))
  }

  // ---------------------------------------------------------------- the invariant

  predicate Alive(state: ProcState) {
    state == RUNNABLE || state == RUNNING || state == SLEEPING
  }

  predicate Exiting(pc: Pc) {
    pc.Reparent? || pc.WakeInit? || pc.WakeParent? || pc.Exit1? || pc.Exit2? || pc.Exit3? || pc.Dead?
  }

  predicate StateFits(pc: Pc, state: ProcState) {
    if pc.User? then state != ZOMBIE
    else if pc.Exit2? || pc.Exit3? || pc.Dead? then state == ZOMBIE
    else if pc.Sleep3? then state == SLEEPING
    else if pc.Asleep? then state == SLEEPING || state == RUNNABLE
    else if Loose(pc) then state == RUNNABLE || state == RUNNING
    else state == RUNNING
  }

  /** Where a process is fits its state, its channel and wait_lock. */
  predicate PlaceOk(p: nat, x: Proc, wait: Option<nat>) {
    && (wait == Some(p) <==> HasWait(x.pc)) && StateFits(x.pc, x.state)
    && (x.chan.OfProc? ==> x.pc.Sleep3? || x.pc.Asleep? || x.pc.Woken?)
    && (x.pc.Sleep3? || x.pc.Asleep? ==> x.chan == OfProc(p))
    && (x.state == UNUSED ==> x.parent == None)
  }

  predicate Forks(pc: Pc) {
    pc.Fork1? || pc.Fork2?
  }

  /** A process being made has one maker, and gets its parent before it can run. */
  predicate ForkOk(s: State, p: nat)
    requires p < |s.procs|
  {
    var x := s.procs[p];
    && (Forks(x.pc) ==>
          && x.pc.np < |s.procs| && x.pc.np != p
          && var y := s.procs[x.pc.np];
             y.state == USED && y.maker == Some(p) && y.parent == if x.pc.Fork2? then Some(p) else None)
    && (x.state == USED ==>
          x.maker.Some? && x.maker.value < |s.procs| && var pc := s.procs[x.maker.value].pc; Forks(pc) && pc.np == p)
  }

  /** Everyone but init has a living parent. */
  predicate FamilyOk(s: State, q: nat)
    requires q < |s.procs|
  {
    var x := s.procs[q];
    && (x.parent.Some? ==> x.parent.value < |s.procs| && x.parent.value != q && Alive(s.procs[x.parent.value].state))
    && ((Alive(x.state) || x.state == ZOMBIE) && q != s.init ==> x.parent.Some?)
    && (q == s.init ==> x.parent == None && Alive(x.state) && !Exiting(x.pc))
  }

  predicate ChildOf(s: State, q: nat, p: nat) {
    q < |s.procs| && s.procs[q].parent == Some(p)
  }

  /** No process before n is a child of p. */
  ghost predicate NoChildren(s: State, p: nat, n: nat) {
    forall q: nat {:trigger ChildOf(s, q, p)} :: q < n ==> !ChildOf(s, q, p)
  }

  /** No process before n is a zombie child of p. */
  ghost predicate NoZombies(s: State, p: nat, n: nat) {
    forall q: nat {:trigger ChildOf(s, q, p)} :: q < n && ChildOf(s, q, p) ==> s.procs[q].state != ZOMBIE
  }

  /** reparent's progress: how many processes are known not to be children of one that is at pc. */
  function Orphaned(pc: Pc, n: nat): nat {
    if pc.Reparent? then pc.i else if pc.WakeInit? then pc.i + 1 else if Exiting(pc) then n else 0
  }

  ghost predicate ExitOk(s: State, p: nat)
    requires p < |s.procs|
  {
    NoChildren(s, p, if Alive(s.procs[p].state) then Orphaned(s.procs[p].pc, |s.procs|) else |s.procs|)
  }

  /** Asleep in kwait, or past the point where it could notice a zombie. */
  predicate Committed(x: Proc) {
    x.pc.Sleep2? || x.pc.Sleep3? || (x.pc.Asleep? && x.state == SLEEPING)
  }

  /** reparent is about to wake init. */
  predicate InitComing(s: State) {
    && s.wait.Some? && s.wait.value < |s.procs|
    && var pc := s.procs[s.wait.value].pc; pc.WakeInit? && pc.j <= s.init
  }

  /** kwait has found none of the first Seen processes to be a zombie child. */
  function Seen(x: Proc, n: nat): nat {
    if x.pc.Scan? then x.pc.i else if x.pc.Sleep1? || Committed(x) then n else 0
  }

  ghost predicate WaitOk(s: State, p: nat)
    requires p < |s.procs|
  {
    NoZombies(s, p, Seen(s.procs[p], |s.procs|)) || (p == s.init && Committed(s.procs[p]) && InitComing(s))
  }

  /** The process that an exiting one has woken for certain. */
  function Roused(s: State, x: Proc): Option<nat> {
    if x.pc.WakeInit? && x.pc.j > s.init then Some(s.init)
    else if x.pc.WakeParent? && x.parent.Some? && x.parent.value < x.pc.j then x.parent
    else if x.pc.Exit1? || x.pc.Exit2? then x.parent
    else None
  }

  predicate RouseOk(s: State, p: nat)
    requires p < |s.procs|
  {
    var r := Roused(s, s.procs[p]);
    r.Some? && r.value < |s.procs| ==> !Committed(s.procs[r.value])
  }

  ghost predicate ProcOk(s: State, p: nat)
    requires p < |s.procs|
  {
    PlaceOk(p, s.procs[p], s.wait) && ForkOk(s, p) && FamilyOk(s, p) && ExitOk(s, p) && WaitOk(s, p) && RouseOk(s, p)
  }

  ghost predicate Inv(s: State) {
    && s.init < |s.procs| && (s.wait.Some? ==> s.wait.value < |s.procs|)
    && forall p: nat {:trigger ProcOk(s, p)} :: p < |s.procs| ==> ProcOk(s, p)
  }

  /** userinit: one process, which is init. */
  ghost predicate Init(s: State) {
    && s.init < |s.procs| && s.wait == None
    && forall p :: 0 <= p < |s.procs| ==> s.procs[p] == if p == s.init then BLANK.(state := RUNNABLE) else BLANK
  }

  lemma InitInv(s: State)
    requires Init(s)
    ensures Inv(s)
  {
  }

  // ---------------------------------------------------------------- what a step does to the rest

  lemma Facts(s: State, p: nat)
    requires Inv(s) && p < |s.procs|
    ensures ProcOk(s, p) && s.init < |s.procs| && (s.wait.Some? ==> s.wait.value < |s.procs|)
  {
  }

  /** Past reparent a process has no children. */
  lemma Childless(s: State, p: nat, q: nat)
    requires Inv(s) && p < |s.procs| && s.procs[p].pc.Exit1? && Alive(s.procs[p].state)
    ensures !ChildOf(s, q, p)
  {
    Facts(s, p);
  }

  /** The steps of kfork, of kexit, and of everything else. */
  predicate ForkAct(a: Action) {
    a.ForkAlloc? || a.ForkFail? || a.ForkParent? || a.ForkStart?
  }

  predicate ExitAct(a: Action) {
    || a.ExitStart? || a.ReparentStep? || a.WakeInitStep? || a.WakeParentStep? || a.ExitZombie? || a.ExitUnwait? ||
      a.ExitGone?
  }

  /** What every step respects in the process it changes besides the acting one. */
  ghost predicate KindToOther(s: State, p: nat, e: Effect)
    requires p < |s.procs| && e.other < |s.procs|
  {
    var y, y' := s.procs[e.other], e.that;
    && (y.state == USED ==> y.maker == Some(p) || y' == y)
    && (y'.state == USED ==>
      (y' == y && !Forks(s.procs[p].pc)) || (y'.maker == Some(p) && Forks(e.self.pc) && e.self.pc.np == e.other))
    && (Alive(y.state) ==> Alive(y'.state))
    && (y'.state == ZOMBIE ==> y.state == ZOMBIE) && (Committed(y') ==> Committed(y))
    && (y'.parent == y.parent || (y'.parent == None && (y'.state == USED || y'.state == UNUSED))
        || (y'.parent == Some(p) && y'.state == USED && e.self.pc.Fork2?)
        || (y'.parent == Some(s.init) && y.parent == Some(p) && y'.state == y.state && e.self.pc.WakeInit? &&
          e.self.pc.j == 0 && e.wait == Some(p)))
    && (Alive(y'.state) ==> Alive(y.state) || y'.parent.Some?)
    && ((y'.pc == y.pc && y'.parent == y.parent && y'.chan == y.chan) || (y'.pc.User? && !Alive(y'.state)) ||
      (y'.pc == y.pc && y'.state == y.state))
  }

  /** What every step respects in the acting process. */
  ghost predicate KindToSelf(s: State, p: nat, e: Effect)
    requires p < |s.procs|
  {
    var x, x' := s.procs[p], e.self;
    && x'.parent == x.parent && x'.maker == x.maker && (p == s.init ==> !Exiting(x'.pc))
    && (Forks(x.pc) ==> (Forks(x'.pc) && x'.pc.np == x.pc.np) || e.other == x.pc.np)
    && x.state != USED && x.state != UNUSED && x'.state != USED && x'.state != UNUSED
    && (Alive(x.state) && !Alive(x'.state) ==> x.pc.Exit1?)
    && (Committed(x') && !Committed(x) ==> s.wait == Some(p))
    && (x'.state == ZOMBIE && x.state != ZOMBIE ==> x.pc.Exit1? && s.wait == Some(p) && x'.pc.Exit2? && e.other == p)
    && (x.pc.WakeInit? && x.pc.j <= s.init ==>
          x'.pc.WakeInit? && e.wait == Some(p) &&
            (x'.pc.j <= s.init || (e.other == s.init && s.init != p && !Committed(e.that))))
  }

  /** How a step moves the acting process through kfork, reparent and kwait's scan. */
  ghost predicate Moves(s: State, p: nat, e: Effect)
    requires p < |s.procs| && e.other < |s.procs|
  {
    var n, x, x' := |s.procs|, s.procs[p], e.self;
    && (Forks(x'.pc) ==>
          (x'.pc == x.pc && e.other == p) ||
            (x'.pc.np == e.other != p && e.that.state == USED && e.that.maker == Some(p) &&
            e.that.parent == if x'.pc.Fork2? then Some(p) else None))
    && (var k, k' := Orphaned(x.pc, n), Orphaned(x'.pc, n);
          k' <= k || k >= n || (k' == k + 1 && (!ChildOf(s, k, p) || (e.other == k != p && e.that.parent != Some(p)))))
    && (var k, k' := Seen(x, n), Seen(x', n);
          k' <= k || k >= n || (k' == k + 1 && (!ChildOf(s, k, p) || s.procs[k].state != ZOMBIE)))
  }

  /** A wakeup passes the process it is looking for only by waking it. */
  ghost predicate Rouses(s: State, p: nat, e: Effect)
    requires p < |s.procs| && e.other < |s.procs|
  {
    var r, r' := Roused(s, s.procs[p]), Roused(s, e.self);
    r'.Some? && r'.value < |s.procs| ==> r' == r || (r'.value == e.other != p && !Committed(e.that))
  }

  lemma ForkPlace(s: State, a: Action)
    requires Inv(s) && Enabled(s, a) && ForkAct(a) && Outcome(s, a).other < |s.procs|
    ensures PlaceOk(a.p, Outcome(s, a).self, Outcome(s, a).wait)
  {
    hide Inv, ExitOk, WaitOk, RouseOk;
    Facts(s, a.p);
  }

  lemma ExitPlace(s: State, a: Action)
    requires Inv(s) && Enabled(s, a) && ExitAct(a) && Outcome(s, a).other < |s.procs|
    ensures PlaceOk(a.p, Outcome(s, a).self, Outcome(s, a).wait)
  {
    hide Inv, ExitOk, WaitOk, RouseOk, ForkOk;
    Facts(s, a.p);
  }

  lemma WaitPlace(s: State, a: Action)
    requires Inv(s) && Enabled(s, a) && !ForkAct(a) && !ExitAct(a) && Outcome(s, a).other < |s.procs|
    ensures PlaceOk(a.p, Outcome(s, a).self, Outcome(s, a).wait)
  {
    hide Inv, ExitOk, WaitOk, RouseOk, ForkOk;
    Facts(s, a.p);
  }

  lemma ForkSelf(s: State, a: Action)
    requires Inv(s) && Enabled(s, a) && ForkAct(a) && Outcome(s, a).other < |s.procs|
    ensures KindToSelf(s, a.p, Outcome(s, a))
  {
    hide Inv, ExitOk, WaitOk, RouseOk;
    Facts(s, a.p);
  }

  lemma ExitSelf(s: State, a: Action)
    requires Inv(s) && Enabled(s, a) && ExitAct(a) && Outcome(s, a).other < |s.procs|
    ensures KindToSelf(s, a.p, Outcome(s, a))
  {
    hide Inv, ExitOk, WaitOk, RouseOk, ForkOk;
    Facts(s, a.p);
    Facts(s, Outcome(s, a).other);
  }

  lemma WaitSelf(s: State, a: Action)
    requires Inv(s) && Enabled(s, a) && !ForkAct(a) && !ExitAct(a) && Outcome(s, a).other < |s.procs|
    ensures KindToSelf(s, a.p, Outcome(s, a))
  {
    hide Inv, ExitOk, WaitOk, RouseOk, ForkOk;
    Facts(s, a.p);
  }

  lemma ForkOther(s: State, a: Action)
    requires Inv(s) && Enabled(s, a) && ForkAct(a) && Outcome(s, a).other != a.p && Outcome(s, a).other < |s.procs|
    ensures KindToOther(s, a.p, Outcome(s, a)) && PlaceOk(Outcome(s, a).other, Outcome(s, a).that, Outcome(s, a).wait)
  {
    hide Inv, ExitOk, WaitOk, RouseOk;
    Facts(s, a.p);
    Facts(s, Outcome(s, a).other);
  }

  /** A child handed to init is not one that is still being made. */
  lemma ReparentOther(s: State, p: nat)
    requires Inv(s) && Enabled(s, ReparentStep(p)) && Outcome(s, ReparentStep(p)).other < |s.procs|
    requires Outcome(s, ReparentStep(p)).other != p
    ensures KindToOther(s, p, Outcome(s, ReparentStep(p)))
  {
    hide Inv, ExitOk, WaitOk, RouseOk;
    Facts(s, p);
    var y := s.procs[Outcome(s, ReparentStep(p)).other];
    Facts(s, Outcome(s, ReparentStep(p)).other);
    if y.state == USED {
      Facts(s, y.maker.value);
    }
  }

  lemma ExitOther(s: State, a: Action)
    requires Inv(s) && Enabled(s, a) && ExitAct(a) && !a.ReparentStep?
    requires Outcome(s, a).other != a.p && Outcome(s, a).other < |s.procs|
    ensures KindToOther(s, a.p, Outcome(s, a))
  {
    hide Inv, ExitOk, WaitOk, RouseOk, ForkOk, FamilyOk;
    Facts(s, a.p);
  }

  lemma ExitOtherPlace(s: State, a: Action)
    requires Inv(s) && Enabled(s, a) && ExitAct(a) && Outcome(s, a).other != a.p && Outcome(s, a).other < |s.procs|
    ensures PlaceOk(Outcome(s, a).other, Outcome(s, a).that, Outcome(s, a).wait)
  {
    hide Inv, ExitOk, WaitOk, RouseOk, ForkOk;
    Facts(s, a.p);
    Facts(s, Outcome(s, a).other);
  }

  lemma WaitOther(s: State, a: Action)
    requires Inv(s) && Enabled(s, a) && !ForkAct(a) && !ExitAct(a)
    requires Outcome(s, a).other != a.p && Outcome(s, a).other < |s.procs|
    ensures KindToOther(s, a.p, Outcome(s, a)) && PlaceOk(Outcome(s, a).other, Outcome(s, a).that, Outcome(s, a).wait)
  {
    hide Inv, ExitOk, WaitOk, RouseOk;
    Facts(s, a.p);
    Facts(s, Outcome(s, a).other);
  }

  lemma ForkMoves(s: State, a: Action)
    requires Inv(s) && Enabled(s, a) && ForkAct(a) && Outcome(s, a).other < |s.procs|
    ensures Moves(s, a.p, Outcome(s, a)) && Rouses(s, a.p, Outcome(s, a))
  {
    hide Inv, ExitOk, WaitOk, RouseOk;
    Facts(s, a.p);
    Facts(s, Outcome(s, a).other);
  }

  lemma ExitMoves(s: State, a: Action)
    requires Inv(s) && Enabled(s, a) && ExitAct(a) && Outcome(s, a).other < |s.procs|
    ensures Moves(s, a.p, Outcome(s, a))
  {
    hide Inv, ExitOk, WaitOk, RouseOk, ForkOk, Awake;
    Facts(s, a.p);
  }

  lemma ExitRouses(s: State, a: Action)
    requires Inv(s) && Enabled(s, a) && ExitAct(a) && Outcome(s, a).other < |s.procs|
    ensures Rouses(s, a.p, Outcome(s, a))
  {
    hide Inv, ExitOk, WaitOk, RouseOk, ForkOk;
    Facts(s, a.p);
    Facts(s, Outcome(s, a).other);
  }

  lemma WaitMoves(s: State, a: Action)
    requires Inv(s) && Enabled(s, a) && !ForkAct(a) && !ExitAct(a) && Outcome(s, a).other < |s.procs|
    ensures Moves(s, a.p, Outcome(s, a)) && Rouses(s, a.p, Outcome(s, a))
  {
    hide Inv, ExitOk, WaitOk, RouseOk, ForkOk;
    Facts(s, a.p);
  }

  lemma Others(s: State, a: Action)
    requires Inv(s) && Enabled(s, a)
    ensures a.p < |s.procs| && Outcome(s, a).other < |s.procs|
    ensures (Outcome(s, a).other == a.p ==> Outcome(s, a).that == Outcome(s, a).self)
    ensures var e := Outcome(s, a);
      e.wait == s.wait || (s.wait == None && e.wait == Some(a.p)) || (s.wait == Some(a.p) && e.wait == None)
  {
    hide Inv, ExitOk, WaitOk, RouseOk, FamilyOk;
    Facts(s, a.p);
  }

  /** All that the rest of the proof needs to know of a step. */
  ghost predicate Kind(s: State, p: nat, e: Effect) {
    && p < |s.procs| && e.other < |s.procs| && KindToSelf(s, p, e) && Moves(s, p, e) && Rouses(s, p, e) &&
      PlaceOk(p, e.self, e.wait)
    && (if e.other == p then e.that == e.self else KindToOther(s, p, e) && PlaceOk(e.other, e.that, e.wait))
    && (e.wait == s.wait || (s.wait == None && e.wait == Some(p)) || (s.wait == Some(p) && e.wait == None))
  }

  lemma StepIsKind(s: State, a: Action)
    requires Inv(s) && Enabled(s, a)
    ensures Kind(s, a.p, Outcome(s, a))
  {
    hide Inv, Enabled, Outcome, KindToSelf, KindToOther, Moves, Rouses, PlaceOk;
    Others(s, a);
    if ForkAct(a) {
      ForkPlace(s, a);
      ForkSelf(s, a);
      ForkMoves(s, a);
      if Outcome(s, a).other != a.p { ForkOther(s, a); }
    } else if ExitAct(a) {
      ExitPlace(s, a);
      ExitSelf(s, a);
      ExitMoves(s, a);
      ExitRouses(s, a);
      if Outcome(s, a).other != a.p {
        if a.ReparentStep? { ReparentOther(s, a.p); } else { ExitOther(s, a); }
        ExitOtherPlace(s, a);
      }
    } else {
      WaitPlace(s, a);
      WaitSelf(s, a);
      WaitMoves(s, a);
      if Outcome(s, a).other != a.p { WaitOther(s, a); }
    }
  }

  lemma RestFork(s: State, p: nat, e: Effect, q: nat)
    requires Inv(s) && Kind(s, p, e) && q < |s.procs| && q != p && q != e.other
    ensures ForkOk(Do(s, p, e), q)
  {
    hide Inv, ExitOk, WaitOk, RouseOk;
    Facts(s, q);
    Facts(s, e.other);
  }

  lemma RestFamily(s: State, p: nat, e: Effect, q: nat)
    requires Inv(s) && Kind(s, p, e) && q < |s.procs| && q != p && q != e.other
    ensures FamilyOk(Do(s, p, e), q)
  {
    hide Inv, ExitOk, WaitOk, RouseOk;
    Facts(s, q);
    Facts(s, p);
    if s.procs[p].pc.Exit1? {
      Childless(s, p, q);
    }
  }

  /** Children of q, and zombies among them, come about only as Kind allows. */
  lemma RestExit(s: State, p: nat, e: Effect, q: nat)
    requires Inv(s) && Kind(s, p, e) && q < |s.procs| && q != p && q != e.other
    ensures ExitOk(Do(s, p, e), q)
  {
    Facts(s, q);
    var t := Do(s, p, e);
    var n := if Alive(s.procs[q].state) then Orphaned(s.procs[q].pc, |s.procs|) else |s.procs|;
    forall c: nat | c < n ensures !ChildOf(t, c, q) {
      assert !ChildOf(s, c, q);
    }
  }

  /** What q has seen of its children, if it has not just been given one. */
  lemma RestSeen(s: State, p: nat, e: Effect, q: nat)
    requires Inv(s) && Kind(s, p, e) && q < |s.procs| && q != p
    requires q != e.other && NoZombies(s, q, Seen(s.procs[q], |s.procs|))
    requires !(q == s.init && e.self.pc.WakeInit? && e.self.pc.j == 0 && Committed(s.procs[q]) && e.wait == Some(p))
    ensures NoZombies(Do(s, p, e), q, Seen(s.procs[q], |s.procs|))
  {
    hide Inv, ExitOk, WaitOk, ForkOk, FamilyOk;
    Facts(s, q);
    Facts(s, p);
    var t := Do(s, p, e);
    forall c: nat | c < Seen(s.procs[q], |s.procs|) && ChildOf(t, c, q) ensures t.procs[c].state != ZOMBIE {
      assert ChildOf(s, c, q) ==> s.procs[c].state != ZOMBIE;
    }
  }

  lemma RestComing(s: State, p: nat, e: Effect)
    requires Inv(s) && Kind(s, p, e) && InitComing(s) && s.init != p && s.init != e.other
    ensures InitComing(Do(s, p, e))
  {
    hide Inv, ExitOk, WaitOk, ForkOk, FamilyOk, RouseOk;
    Facts(s, p);
    Facts(s, s.wait.value);
  }

  lemma RestWait(s: State, p: nat, e: Effect, q: nat)
    requires Inv(s) && Kind(s, p, e) && q < |s.procs| && q != p && q != e.other
    ensures WaitOk(Do(s, p, e), q)
  {
    hide Inv, ExitOk, ForkOk, FamilyOk, NoZombies;
    Facts(s, q);
    if q == s.init && Committed(s.procs[q]) && InitComing(s) {
      RestComing(s, p, e);
    } else if !(q == s.init && e.self.pc.WakeInit? && e.self.pc.j == 0 && Committed(s.procs[q]) && e.wait == Some(p)) {
      RestSeen(s, p, e, q);
    }
  }

  lemma RestRouse(s: State, p: nat, e: Effect, q: nat)
    requires Inv(s) && Kind(s, p, e) && q < |s.procs| && q != p && q != e.other
    ensures RouseOk(Do(s, p, e), q)
  {
    hide Inv, ExitOk, WaitOk, ForkOk, FamilyOk;
    Facts(s, q);
    Facts(s, p);
  }

  // ---------------------------------------------------------------- the acting process

  lemma SelfFork(s: State, p: nat, e: Effect)
    requires Inv(s) && Kind(s, p, e)
    ensures ForkOk(Do(s, p, e), p)
  {
    hide Inv, ExitOk, WaitOk, RouseOk;
    Facts(s, p);
  }

  lemma SelfFamily(s: State, p: nat, e: Effect)
    requires Inv(s) && Kind(s, p, e)
    ensures FamilyOk(Do(s, p, e), p)
  {
    hide Inv, ExitOk, WaitOk, RouseOk, ForkOk;
    Facts(s, p);
  }

  /** reparent leaves behind no child it has passed. */
  lemma SelfExit(s: State, p: nat, e: Effect)
    requires Inv(s) && Kind(s, p, e)
    ensures ExitOk(Do(s, p, e), p)
  {
    hide Inv, WaitOk, RouseOk, ForkOk;
    Facts(s, p);
    var t, x := Do(s, p, e), s.procs[p];
    forall c: nat | c < (if Alive(e.self.state) then Orphaned(e.self.pc, |s.procs|) else |s.procs|)
      ensures !ChildOf(t, c, p)
    {
      assert c < (if Alive(x.state) then Orphaned(x.pc, |s.procs|) else |s.procs|) ==> !ChildOf(s, c, p);
    }
  }

  /** kwait goes to sleep having seen every child alive. */
  lemma SelfWait(s: State, p: nat, e: Effect)
    requires Inv(s) && Kind(s, p, e)
    ensures WaitOk(Do(s, p, e), p)
  {
    hide Inv, RouseOk, ForkOk, ExitOk, Rouses, Orphaned;
    Facts(s, p);
    var t, x := Do(s, p, e), s.procs[p];
    if NoZombies(s, p, Seen(x, |s.procs|)) {
      forall c: nat | c < Seen(e.self, |s.procs|) && ChildOf(t, c, p) ensures t.procs[c].state != ZOMBIE {
        assert c < Seen(x, |s.procs|) && ChildOf(s, c, p) ==> s.procs[c].state != ZOMBIE;
      }
    }
  }

  /** wakeup leaves nobody it was looking for committed to sleep. */
  lemma SelfRouse(s: State, p: nat, e: Effect)
    requires Inv(s) && Kind(s, p, e)
    ensures RouseOk(Do(s, p, e), p)
  {
    hide Inv, WaitOk, ForkOk, ExitOk;
    Facts(s, p);
  }

  // ---------------------------------------------------------------- the other process

  lemma OtherFork(s: State, p: nat, e: Effect)
    requires Inv(s) && Kind(s, p, e) && e.other != p
    ensures ForkOk(Do(s, p, e), e.other)
  {
    hide Inv, WaitOk, RouseOk, ExitOk;
    Facts(s, p);
    Facts(s, e.other);
  }

  lemma OtherFamily(s: State, p: nat, e: Effect)
    requires Inv(s) && Kind(s, p, e) && e.other != p
    ensures FamilyOk(Do(s, p, e), e.other)
  {
    hide Inv, WaitOk, RouseOk, ExitOk, Moves, Rouses, ForkOk;
    Facts(s, p);
    Facts(s, e.other);
    Facts(s, s.init);
    if s.procs[p].pc.Exit1? {
      Childless(s, p, e.other);
    }
  }

  lemma OtherExit(s: State, p: nat, e: Effect)
    requires Inv(s) && Kind(s, p, e) && e.other != p
    ensures ExitOk(Do(s, p, e), e.other)
  {
    hide Inv, WaitOk, RouseOk, ForkOk;
    var t, y := Do(s, p, e), s.procs[e.other];
    Facts(s, e.other);
    forall c: nat | c < (if Alive(e.that.state) then Orphaned(e.that.pc, |s.procs|) else |s.procs|)
      ensures !ChildOf(t, c, e.other)
    {
      assert c < (if Alive(y.state) then Orphaned(y.pc, |s.procs|) else |s.procs|) ==> !ChildOf(s, c, e.other);
    }
  }

  lemma OtherWait(s: State, p: nat, e: Effect)
    requires Inv(s) && Kind(s, p, e) && e.other != p
    ensures WaitOk(Do(s, p, e), e.other)
  {
    hide Inv, ForkOk, ExitOk, RouseOk;
    var t, y := Do(s, p, e), s.procs[e.other];
    Facts(s, p);
    Facts(s, e.other);
    if NoZombies(s, e.other, Seen(y, |s.procs|)) {
      forall c: nat | c < Seen(e.that, |s.procs|) && ChildOf(t, c, e.other) ensures t.procs[c].state != ZOMBIE {
        assert c < Seen(y, |s.procs|) && ChildOf(s, c, e.other) ==> s.procs[c].state != ZOMBIE;
      }
    }
  }

  lemma OtherRouse(s: State, p: nat, e: Effect)
    requires Inv(s) && Kind(s, p, e) && e.other != p
    ensures RouseOk(Do(s, p, e), e.other)
  {
    hide Inv, WaitOk, ForkOk, ExitOk;
    Facts(s, p);
    Facts(s, e.other);
  }

  // ---------------------------------------------------------------- whole runs

  lemma StepKeepsProc(s: State, p: nat, e: Effect, q: nat)
    requires Inv(s) && Kind(s, p, e) && q < |s.procs|
    ensures ProcOk(Do(s, p, e), q)
  {
    hide ForkOk, FamilyOk, ExitOk, WaitOk, RouseOk, KindToSelf, KindToOther, Moves, Rouses;
    if q == e.other && q != p {
      OtherFork(s, p, e);
      OtherFamily(s, p, e);
      OtherExit(s, p, e);
      OtherWait(s, p, e);
      OtherRouse(s, p, e);
    } else if q == p {
      SelfFork(s, p, e);
      SelfFamily(s, p, e);
      SelfExit(s, p, e);
      SelfWait(s, p, e);
      SelfRouse(s, p, e);
    } else {
      Facts(s, q);
      RestFork(s, p, e, q);
      RestFamily(s, p, e, q);
      RestExit(s, p, e, q);
      RestWait(s, p, e, q);
      RestRouse(s, p, e, q);
    }
  }

  lemma StepKeeps(s: State, a: Action)
    requires Inv(s) && Enabled(s, a)
    ensures Inv(Apply(s, a))
  {
    hide ProcOk, Enabled, Outcome, KindToSelf, KindToOther, Moves, Rouses;
    StepIsKind(s, a);
    forall q: nat | q < |s.procs| ensures ProcOk(Apply(s, a), q) {
      StepKeepsProc(s, a.p, Outcome(s, a), q);
    }
  }

  ghost predicate Next(s: State, t: State) {
    exists a :: Enabled(s, a) && t == Apply(s, a)
  }

  /** ss is a run from the start. */
  ghost predicate Behavior(ss: seq<State>) {
    Run(Next, ss) && Init(ss[0])
  }

  lemma RunKeeps(ss: seq<State>, k: nat)
    requires Behavior(ss) && k < |ss|
    ensures Inv(ss[k])
  {
    InitInv(ss[0]);
    forall s, t | Inv(s) && Next(s, t) ensures Inv(t) {
      var a :| Enabled(s, a) && t == Apply(s, a);
      StepKeeps(s, a);
    }
    Always(Next, Inv, ss, k);
  }

  /** In every run, every process but init that can run or is a zombie has a parent that is alive. */
  lemma ParentsAlive(ss: seq<State>, k: nat, q: nat)
    requires Behavior(ss) && k < |ss| && q < |ss[k].procs| && q != ss[k].init
    requires var x := ss[k].procs[q]; Alive(x.state) || x.state == ZOMBIE
    ensures var t := ss[k];
      t.procs[q].parent.Some? && t.procs[q].parent.value < |t.procs| && Alive(t.procs[t.procs[q].parent.value].state)
  {
    RunKeeps(ss, k);
    Facts(ss[k], q);
  }

  /** In every run, while wait_lock is free nobody asleep in kwait, or committed to, has a zombie child. */
  lemma NobodySleepsOnZombie(ss: seq<State>, k: nat, p: nat, q: nat)
    requires Behavior(ss) && k < |ss| && ss[k].wait == None
    requires var t := ss[k]; p < |t.procs| && Committed(t.procs[p]) && ChildOf(t, q, p)
    ensures ss[k].procs[q].state != ZOMBIE
  {
    RunKeeps(ss, k);
    Facts(ss[k], p);
  }

  /** In every run, what kwait frees is a zombie that has left its CPU for good, and has no children. */
  lemma ReapIsSafe(ss: seq<State>, k: nat, p: nat)
    requires Behavior(ss) && k < |ss| && Enabled(ss[k], ScanStep(p, false))
    requires var t := ss[k]; ChildOf(t, t.procs[p].pc.i, p) && t.procs[t.procs[p].pc.i].state == ZOMBIE
    ensures var t := ss[k]; t.procs[t.procs[p].pc.i].pc == Dead && NoChildren(t, t.procs[p].pc.i, |t.procs|)
  {
    RunKeeps(ss, k);
    Facts(ss[k], ss[k].procs[p].pc.i);
  }

  /** A zombie is freed by a step of its parent's kwait and by nothing else, and is then no zombie any more. */
  lemma FreedOnce(s: State, a: Action, q: nat)
    requires Inv(s) && Enabled(s, a) && q < |s.procs| && s.procs[q].state == ZOMBIE
    ensures var t := Apply(s, a);
      t.procs[q].state == ZOMBIE || (a.ScanStep? && ChildOf(s, q, a.p) && t.procs[q] == BLANK && s.procs[q].pc == Dead)
  {
    hide Inv, ExitOk, WaitOk, RouseOk;
    Facts(s, a.p);
    Facts(s, q);
  }

  // ---------------------------------------------------------------- what kwait, kfork and kexit answer

  /** kwait's havekids, while it scans: there is a child among the processes seen. */
  ghost predicate KidsOk(s: State, p: nat)
    requires p < |s.procs|
  {
    var pc := s.procs[p].pc;
    pc.Scan? ==> (pc.kids <==> exists q: nat :: q < pc.i && ChildOf(s, q, p))
  }

  /** While somebody has wait_lock, nobody else changes whose child a process is. */
  lemma ParentsKept(s: State, a: Action, q: nat)
    requires Inv(s) && Enabled(s, a) && s.wait.Some? && s.wait.value != a.p && q < |s.procs|
    ensures Apply(s, a).procs[q].parent == s.procs[q].parent
  {
    hide Inv, ExitOk, WaitOk, RouseOk;
    Facts(s, a.p);
    Facts(s, q);
  }

  lemma ScannerKids(s: State, a: Action)
    requires Inv(s) && Enabled(s, a) && Apply(s, a).procs[a.p].pc.Scan? && KidsOk(s, a.p)
    ensures KidsOk(Apply(s, a), a.p)
  {
    hide Inv;
    var p, t := a.p, Apply(s, a);
    assert forall q: nat :: ChildOf(t, q, p) <==> ChildOf(s, q, p);
    if a.ScanStep? {
      var pc := s.procs[p].pc;
      assert ChildOf(s, pc.i, p) <==> s.procs[pc.i].parent == Some(p);
      if pc.kids {
        var q: nat :| q < pc.i && ChildOf(s, q, p);
        assert ChildOf(t, q, p);
      } else if ChildOf(s, pc.i, p) {
        assert ChildOf(t, pc.i, p);
      }
    }
  }

  lemma KidsKept(s: State, a: Action, p: nat)
    requires Inv(s) && Enabled(s, a) && p < |s.procs| && KidsOk(s, p)
    ensures KidsOk(Apply(s, a), p)
  {
    hide Inv, ForkOk, FamilyOk, ExitOk, WaitOk, RouseOk;
    Facts(s, p);
    Facts(s, a.p);
    var t := Apply(s, a);
    if t.procs[p].pc.Scan? {
      if p == a.p {
        ScannerKids(s, a);
      } else {
        PcKept(s, a, p);
        forall q: nat ensures ChildOf(t, q, p) <==> ChildOf(s, q, p) {
          if q < |s.procs| {
            ParentsKept(s, a, q);
          }
        }
      }
    }
  }

  /** Nobody is moved by another process's step, but for being freed. */
  lemma PcKept(s: State, a: Action, p: nat)
    requires Inv(s) && Enabled(s, a) && p < |s.procs| && p != a.p
    ensures var x, y := s.procs[p], Apply(s, a).procs[p];
      y.pc == x.pc || (y == BLANK && (x.pc == Dead || x.state == USED))
  {
    hide Inv, ExitOk, WaitOk, RouseOk;
    Facts(s, a.p);
    Facts(s, p);
  }

  ghost predicate Counts(s: State) {
    Inv(s) && forall p: nat {:trigger KidsOk(s, p)} :: p < |s.procs| ==> KidsOk(s, p)
  }

  lemma RunCounts(ss: seq<State>, k: nat)
    requires Behavior(ss) && k < |ss|
    ensures Counts(ss[k])
  {
    hide Inv, KidsOk, Enabled, Apply;
    assert Counts(ss[0]) by {
      InitCounts(ss[0]);
    }
    forall s, t | Counts(s) && Next(s, t) ensures Counts(t) {
      var a :| Enabled(s, a) && t == Apply(s, a);
      StepKeeps(s, a);
      SameLength(s, a);
      forall p: nat | p < |t.procs| ensures KidsOk(t, p) {
        KidsKept(s, a, p);
      }
    }
    Always(Next, Counts, ss, k);
  }

  lemma SameLength(s: State, a: Action)
    requires Inv(s) && Enabled(s, a)
    ensures |Apply(s, a).procs| == |s.procs|
  {
  }

  lemma InitCounts(s: State)
    requires Init(s)
    ensures Counts(s)
  {
    InitInv(s);
  }

  /** In every run, at any point of its scan kwait's havekids says whether there is a child among those seen. */
  lemma KidsCounted(ss: seq<State>, k: nat, p: nat)
    requires Behavior(ss) && k < |ss| && p < |ss[k].procs| && ss[k].procs[p].pc.Scan?
    ensures var s := ss[k]; s.procs[p].pc.kids <==> exists q: nat :: q < s.procs[p].pc.i && ChildOf(s, q, p)
  {
    RunCounts(ss, k);
    assert KidsOk(ss[k], p);
  }

  predicate InWait(pc: Pc) {
    pc.WaitStart? || pc.Scan? || pc.Sleep1? || pc.Sleep2? || pc.Sleep3? || pc.Asleep? || pc.Woken?
  }

  /**
   In every run, whoever is in kwait stays there, however often it is woken, until a scan of its
   own finds a zombie child, which it frees unless the copyout of the status fails; or a whole
   scan has found none and it has no children at all, or was killed.
   */
  lemma WaitAnswers(ss: seq<State>, k: nat, a: Action, p: nat)
    requires Behavior(ss) && k < |ss| && Enabled(ss[k], a) && p < |ss[k].procs| && InWait(ss[k].procs[p].pc)
    ensures var s, t := ss[k], Apply(ss[k], a);
      || InWait(t.procs[p].pc)
      || (&& a.ScanStep? && a.p == p && t.procs[p].pc == User && t.wait == None
          && var q := s.procs[p].pc.i;
             && ChildOf(s, q, p) && s.procs[q].state == ZOMBIE
             && t.procs[q] == if a.failed then s.procs[q] else BLANK)
      || (&& a.ScanEnd? && a.p == p && t.procs[p].pc == User && t.wait == None
          && (a.killed || forall q: nat :: !ChildOf(s, q, p)))
  {
    hide ForkOk, FamilyOk, ExitOk, WaitOk, RouseOk, KidsOk, Inv, Enabled, Apply;
    RunCounts(ss, k);
    Facts(ss[k], p);
    if a.p != p {
      PcKept(ss[k], a, p);
    } else {
      WaitGoesOn(ss[k], a);
    }
  }

  lemma WaitGoesOn(s: State, a: Action)
    requires Inv(s) && Enabled(s, a) && InWait(s.procs[a.p].pc) && KidsOk(s, a.p)
    ensures var p, t := a.p, Apply(s, a);
      || InWait(t.procs[p].pc)
      || (&& a.ScanStep? && t.procs[p].pc == User && t.wait == None
          && var q := s.procs[p].pc.i;
             && ChildOf(s, q, p) && s.procs[q].state == ZOMBIE
             && t.procs[q] == if a.failed then s.procs[q] else BLANK)
      || (&& a.ScanEnd? && t.procs[p].pc == User && t.wait == None
          && (a.killed || forall q: nat :: !ChildOf(s, q, p)))
  {
    hide ForkOk, ExitOk, WaitOk, RouseOk, Inv;
    Facts(s, a.p);
  }

  /** In every run, a kwait that ends a scan goes to sleep exactly if it has a child and was not killed. */
  lemma WaitSleeps(ss: seq<State>, k: nat, p: nat, killed: bool)
    requires Behavior(ss) && k < |ss| && Enabled(ss[k], ScanEnd(p, killed))
    ensures var pc := Apply(ss[k], ScanEnd(p, killed)).procs[p].pc;
      pc == if !killed && exists q: nat :: ChildOf(ss[k], q, p) then Sleep1 else User
  {
    KidsCounted(ss, k, p);
  }

  /** In every run, kfork ends with its child gone, or with its child able to run and knowing its parent. */
  lemma ForkAnswers(ss: seq<State>, k: nat, a: Action, p: nat)
    requires Behavior(ss) && k < |ss| && Enabled(ss[k], a) && p < |ss[k].procs| && Forks(ss[k].procs[p].pc)
    ensures var s, t := ss[k], Apply(ss[k], a);
      var np := s.procs[p].pc.np;
      || (Forks(t.procs[p].pc) && t.procs[p].pc.np == np && np < |t.procs| && t.procs[np].state == USED)
      || (&& a.p == p && t.procs[p].pc == User && np < |t.procs|
          && if a.ForkFail? then t.procs[np] == BLANK
             else t.procs[np].state == RUNNABLE && t.procs[np].parent == Some(p))
  {
    hide ExitOk, WaitOk, RouseOk, Inv, Enabled, Apply;
    RunKeeps(ss, k);
    Facts(ss[k], p);
    if a.p == p {
      ForkGoesOn(ss[k], a);
    } else {
      PcKept(ss[k], a, p);
      StepKeeps(ss[k], a);
      SameLength(ss[k], a);
      Facts(Apply(ss[k], a), p);
    }
  }

  lemma ForkGoesOn(s: State, a: Action)
    requires Inv(s) && Enabled(s, a) && Forks(s.procs[a.p].pc)
    ensures var t, p, np := Apply(s, a), a.p, s.procs[a.p].pc.np;
      && np < |t.procs| && np != p && p < |t.procs|
      && if Forks(t.procs[p].pc) then t.procs[p].pc.np == np && t.procs[np].state == USED
         else t.procs[p].pc == User && if a.ForkFail? then t.procs[np] == BLANK
         else t.procs[np].state == RUNNABLE && t.procs[np].parent == Some(p)
  {
    hide ExitOk, WaitOk, RouseOk, Inv;
    Facts(s, a.p);
  }

  /** In every run, a process that has called kexit never returns: it gets on with it or is freed as a zombie. */
  lemma ExitEnds(ss: seq<State>, k: nat, a: Action, p: nat)
    requires Behavior(ss) && k < |ss| && Enabled(ss[k], a) && p < |ss[k].procs| && Exiting(ss[k].procs[p].pc)
    ensures var s, t := ss[k], Apply(ss[k], a);
      Exiting(t.procs[p].pc) || (s.procs[p].state == ZOMBIE && s.procs[p].pc == Dead && t.procs[p] == BLANK)
    ensures var s, t := ss[k], Apply(ss[k], a); t.procs[p].pc == Dead ==> t.procs[p].state == ZOMBIE
  {
    hide ForkOk, FamilyOk, ExitOk, WaitOk, RouseOk, Inv, Enabled, Apply;
    RunKeeps(ss, k);
    Facts(ss[k], p);
    StepKeeps(ss[k], a);
    SameLength(ss[k], a);
    Facts(Apply(ss[k], a), p);
    if a.p == p {
      ExitGoesOn(ss[k], a);
    } else {
      PcKept(ss[k], a, p);
    }
  }

  lemma ExitGoesOn(s: State, a: Action)
    requires Inv(s) && Enabled(s, a) && Exiting(s.procs[a.p].pc)
    ensures Exiting(Apply(s, a).procs[a.p].pc)
  {
    hide ForkOk, FamilyOk, ExitOk, WaitOk, RouseOk, Inv, ProcOk;
    ExitingRuns(s, a.p);
  }

  // ---------------------------------------------------------------- progress

  /** At most so many steps of its own does a process have before it is out of kfork, dead, or asleep in kwait. */
  function Left(pc: Pc, n: nat): nat {
    match pc
    case User => 0
    case Fork1(_) => 2
    case Fork2(_) => 1
    case Reparent(i) => 5 + n + Beyond(i, n) * (n + 3)
    case WakeInit(i, j) => 6 + n + Beyond(i + 1, n) * (n + 3) + Beyond(j, n)
    case WakeParent(j) => 4 + Beyond(j, n)
    case Exit1 => 3
    case Exit2 => 2
    case Exit3 => 1
    case Dead => 0
    case Woken => 6 + n
    case WaitStart => 5 + n
    case Scan(i, _) => 4 + Beyond(i, n)
    case Sleep1 => 3
    case Sleep2 => 2
    case Sleep3 => 1
    case Asleep => 0
  }

  function Beyond(i: nat, n: nat): nat {
    if i < n then n - i else 0
  }

  /** The steps that call kfork, kexit or kwait, or resume kwait, and those of the scheduler and of other code. */
  predicate Enters(a: Action) {
    a.ForkAlloc? || a.ExitStart? || a.WaitCall? || a.SleepIn?
  }

  predicate Elsewhere(a: Action) {
    a.Dispatch? || a.Yield? || a.SleepOther? || a.WakeOther?
  }

  lemma ReparentLeft(i: nat, n: nat)
    requires i < n
    ensures Beyond(i, n) * (n + 3) == Beyond(i + 1, n) * (n + 3) + n + 3
  {
    assert Beyond(i, n) == Beyond(i + 1, n) + 1;
  }

  lemma ExitingRuns(s: State, p: nat)
    requires Inv(s) && p < |s.procs| && Exiting(s.procs[p].pc)
    ensures s.procs[p].state == RUNNING || s.procs[p].state == ZOMBIE
  {
    hide ForkOk, FamilyOk, ExitOk, WaitOk, RouseOk, Inv;
    Facts(s, p);
  }

  lemma ReparentRunsOut(s: State, a: Action)
    requires Enabled(s, a) && a.ReparentStep?
    ensures Left(Apply(s, a).procs[a.p].pc, |s.procs|) < Left(s.procs[a.p].pc, |s.procs|)
  {
    var i, n := s.procs[a.p].pc.i, |s.procs|;
    if i < n {
      ReparentLeft(i, n);
    }
  }

  lemma ExitRunsOut(s: State, a: Action)
    requires Inv(s) && Enabled(s, a) && Exiting(s.procs[a.p].pc)
    ensures Left(Apply(s, a).procs[a.p].pc, |s.procs|) < Left(s.procs[a.p].pc, |s.procs|)
  {
    hide ForkOk, FamilyOk, ExitOk, WaitOk, RouseOk, Inv, ProcOk;
    ExitingRuns(s, a.p);
    if a.ReparentStep? {
      ReparentRunsOut(s, a);
    }
  }

  lemma WaitRunsOut(s: State, a: Action)
    requires Inv(s) && Enabled(s, a) && InWait(s.procs[a.p].pc) && !Elsewhere(a) && !a.SleepIn?
    ensures Left(Apply(s, a).procs[a.p].pc, |s.procs|) < Left(s.procs[a.p].pc, |s.procs|)
  {
    hide ForkOk, FamilyOk, ExitOk, WaitOk, RouseOk, Inv, ProcOk;
  }

  lemma ForkRunsOut(s: State, a: Action)
    requires Inv(s) && Enabled(s, a) && Forks(s.procs[a.p].pc) && !Elsewhere(a)
    ensures Left(Apply(s, a).procs[a.p].pc, |s.procs|) < Left(s.procs[a.p].pc, |s.procs|)
  {
    hide FamilyOk, ExitOk, WaitOk, RouseOk, Inv;
    Facts(s, a.p);
  }

  /** Every step inside kfork, kexit and kwait brings the process nearer to its end. */
  lemma StepsRunOut(s: State, a: Action)
    requires Inv(s) && Enabled(s, a) && !Elsewhere(a) && !Enters(a)
    ensures Left(Apply(s, a).procs[a.p].pc, |s.procs|) < Left(s.procs[a.p].pc, |s.procs|)
  {
    hide Inv, Left, Apply;
    var pc := s.procs[a.p].pc;
    if Exiting(pc) {
      ExitRunsOut(s, a);
    } else if InWait(pc) {
      WaitRunsOut(s, a);
    } else {
      ForkRunsOut(s, a);
    }
  }

  /** The other steps begin or resume such a call, or only change the process's state. */
  lemma StepsBegin(s: State, a: Action)
    requires Inv(s) && Enabled(s, a) && (Elsewhere(a) || Enters(a))
    ensures var x, y := s.procs[a.p], Apply(s, a).procs[a.p];
      && (Elsewhere(a) ==> y.pc == x.pc && y.state != x.state) && (a.ForkAlloc? ==> Forks(y.pc))
      && (a.ExitStart? ==> y.pc == Reparent(0)) && (a.WaitCall? || a.SleepIn? ==> InWait(y.pc))
  {
  }

  /** Nobody is woken but whoever sleeps on init or on the parent of a process that exits. */
  lemma OthersSleepOn(s: State, a: Action, q: nat)
    requires Inv(s) && Enabled(s, a) && q < |s.procs| && q != a.p && s.procs[q].state == SLEEPING
    ensures var x, y := s.procs[q], Apply(s, a).procs[q];
      || y.state == SLEEPING
      || (&& y == x.(state := RUNNABLE)
          && ((a.WakeInitStep? && x.chan == OfProc(s.init))
              || (a.WakeParentStep? && s.procs[a.p].parent.Some? && x.chan == OfProc(s.procs[a.p].parent.value))))
  {
    hide ExitOk, WaitOk, RouseOk, Inv;
    Facts(s, a.p);
    Facts(s, q);
  }
}
