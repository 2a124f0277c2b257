/**
 The descriptor protocol of kernel/virtio_disk.c (split virtqueues, section 2.6 of
 VIRTIO 1.1; block requests, section 5.2).

 Each method below is one stretch of code that runs while the driver lock is held, or
 one step of the device. Between any two of them Valid holds, so it holds in every
 interleaving of requests, interrupts and device steps.
 */
module Virtio {

  const NUM: nat := 8
  const WRAP: nat := 0x1_0000      // the ring indices are 16 bits wide

  type Block = seq<int>

  /** What a descriptor's address field points at. */
  datatype Target = Nothing | Request(op: nat) | Data(buf: nat) | Status(op: nat)

  datatype Desc = Desc(addr: Target, hasNext: bool, deviceWrites: bool, next: nat)

  datatype Op = Op(write: bool, sector: nat)

  datatype Info = Info(buf: nat, pending: bool, status: nat)

  /** How far a request has come. The number is its place in the ring it is in. */
  datatype Phase = Queued(at: nat) | Taken | Done(at: nat) | Released

  /** A request in flight: its descriptors besides the head, its buffer and what was asked. */
  datatype Chain = Chain(data: nat, status: nat, buf: nat, op: Op, phase: Phase)

  const EMPTY := Desc(Nothing, false, false, 0)

  // ---------------------------------------------------------------- counting free descriptors

  function FreeCount(free: seq<bool>): nat {
    if free == [] then 0 else (if free[0] then 1 else 0) + FreeCount(free[1..])
  }

  lemma {:induction false} FreeCountUpdate(free: seq<bool>, i: nat, v: bool)
    requires i < |free|
    ensures FreeCount(free[i := v]) == FreeCount(free) - (if free[i] then 1 else 0) + (if v then 1 else 0)
  {
    var free' := free[i := v];
    if i > 0 {
      FreeCountUpdate(free[1..], i - 1, v);
      assert free'[1..] == free[1..][i - 1 := v];
    } else {
      assert free'[1..] == free[1..];
    }
  }

  lemma {:induction false} FreeCountZero(free: seq<bool>)
    ensures FreeCount(free) == 0 <==> forall i :: 0 <= i < |free| ==> !free[i]
  {
    if free != [] {
      FreeCountZero(free[1..]);
      assert forall i :: 1 <= i < |free| ==> free[i] == free[1..][i - 1];
      assert forall i :: 0 <= i < |free| - 1 ==> free[1..][i] == free[i + 1];
    }
  }

  // ---------------------------------------------------------------- the invariant, part by part

  predicate In(c: Chain, h: nat, i: nat) {
    i == h || i == c.data || i == c.status
  }

  /** The three descriptors of a chain, linked head to data to status. */
  ghost predicate Linked(desc: seq<Desc>, h: nat, c: Chain) {
    && |desc| == NUM && h < NUM && c.data < NUM && c.status < NUM
    && h != c.data && h != c.status && c.data != c.status
    && desc[h] == Desc(Request(h), true, false, c.data)
    && desc[c.data] == Desc(Data(c.buf), true, !c.op.write, c.status)
    && desc[c.status] == Desc(Status(h), false, true, 0)
  }

  /** A descriptor is out exactly when it belongs to a chain, and then to one chain only. */
  ghost predicate Owned(free: seq<bool>, chains: map<nat, Chain>) {
    && |free| == NUM
    && (forall h, i :: h in chains && 0 <= i < NUM && In(chains[h], h, i) ==> !free[i])
    && (forall i :: 0 <= i < NUM && !free[i] ==> exists h :: h in chains && In(chains[h], h, i))
    && (forall h, g, i: nat :: h in chains && g in chains && In(chains[h], h, i) && In(chains[g], g, i) ==> h == g)
  }

  ghost predicate Recorded(ops: seq<Op>, info: seq<Info>, h: nat, c: Chain) {
    && |ops| == |info| == NUM && h < NUM
    && ops[h] == c.op
    && info[h].pending && info[h].buf == c.buf
    && (c.phase.Done? ==> info[h].status == 0)
  }

  /** Entries from..|order| of an order sit in the ring, addressed by a 16-bit index. */
  ghost predicate RingHolds(ring: seq<nat>, idx: nat, order: seq<nat>, from: nat) {
    && |ring| == NUM && from <= |order| && idx == |order| % WRAP
    && (forall k :: from <= k < |order| ==> ring[k % NUM] == order[k])
  }

  ghost predicate InPhase(chains: map<nat, Chain>, submitted: seq<nat>, taken: nat, completed: seq<nat>, seen: nat) {
    && taken <= |submitted| && seen <= |completed|
    && (forall k :: taken <= k < |submitted| ==> submitted[k] in chains && chains[submitted[k]].phase == Queued(k))
    && (forall k :: seen <= k < |completed| ==> completed[k] in chains && chains[completed[k]].phase == Done(k))
    && (forall h :: h in chains && chains[h].phase.Queued? ==>
          taken <= chains[h].phase.at < |submitted| && submitted[chains[h].phase.at] == h)
    && (forall h :: h in chains && chains[h].phase.Done? ==>
          seen <= chains[h].phase.at < |completed| && completed[chains[h].phase.at] == h)
  }

  /** Each buffer is in flight at most once, and is marked as owned by the disk until its release. */
  ghost predicate Buffers(onDisk: set<nat>, chains: map<nat, Chain>) {
    && (forall h, g :: h in chains && g in chains && chains[h].buf == chains[g].buf ==> h == g)
    && (forall h :: h in chains ==> (chains[h].buf in onDisk <==> chains[h].phase != Released))
  }

  /** Distinct places hold distinct heads, so an order cannot be longer than the set of chains. */
  lemma {:induction false} Pigeonhole(order: seq<nat>, from: nat, heads: set<nat>)
    requires from <= |order|
    requires forall k :: from <= k < |order| ==> order[k] in heads
    requires forall j, k :: from <= j < k < |order| ==> order[j] != order[k]
    ensures |order| - from <= |heads|
    decreases |order|
  {
    if from < |order| {
      var last := order[|order| - 1];
      Pigeonhole(order[..|order| - 1], from, heads - {last});
    }
  }

  lemma QueuesShort(chains: map<nat, Chain>, submitted: seq<nat>, taken: nat, completed: seq<nat>, seen: nat)
    requires InPhase(chains, submitted, taken, completed, seen)
    ensures |submitted| - taken <= |chains| && |completed| - seen <= |chains|
  {
    Pigeonhole(submitted, taken, chains.Keys);
    Pigeonhole(completed, seen, chains.Keys);
  }

  lemma SixteenBits(n: nat)
    ensures (n % WRAP) % NUM == n % NUM && (n % WRAP + 1) % WRAP == (n + 1) % WRAP
  {
  }

  lemma OtherSlot(k: nat, n: nat)
    requires k < n < k + NUM
    ensures k % NUM != n % NUM
  {
  }

  /** Appending to a ring that is not full overwrites no entry that is still waiting. */
  lemma RingAppend(ring: seq<nat>, idx: nat, order: seq<nat>, from: nat, h: nat)
    requires RingHolds(ring, idx, order, from) && |order| - from < NUM
    ensures RingHolds(ring[idx % NUM := h], (idx + 1) % WRAP, order + [h], from)
  {
    SixteenBits(|order|);
    forall k | from <= k < |order| ensures k % NUM != |order| % NUM {
      OtherSlot(k, |order|);
    }
  }

  /** The reader of a ring, counting in 16 bits, finds the entry it is due. */
  lemma RingRead(ring: seq<nat>, idx: nat, order: seq<nat>, from: nat, at: nat)
    requires RingHolds(ring, idx, order, from) && |order| - from < NUM && at == from % WRAP
    ensures at == idx <==> from == |order|
    ensures from < |order| ==> ring[at % NUM] == order[from]
    ensures from < |order| ==> RingHolds(ring, idx, order, from + 1) && (at + 1) % WRAP == (from + 1) % WRAP
  {
    SixteenBits(from);
  }

  // ---------------------------------------------------------------- a request enters

  ghost predicate AllLinked(desc: seq<Desc>, chains: map<nat, Chain>) {
    forall h :: h in chains ==> Linked(desc, h, chains[h])
  }

  ghost predicate AllRecorded(ops: seq<Op>, info: seq<Info>, chains: map<nat, Chain>) {
    forall h :: h in chains ==> Recorded(ops, info, h, chains[h])
  }

  /** Three distinct descriptors that are free. */
  predicate ThreeFree(free: seq<bool>, h: nat, d: nat, s: nat) {
    && |free| == NUM && h < NUM && d < NUM && s < NUM
    && h != d && h != s && d != s && free[h] && free[d] && free[s]
  }

  function Occupy(free: seq<bool>, h: nat, d: nat, s: nat): seq<bool>
    requires ThreeFree(free, h, d, s)
  {
    free[h := false][d := false][s := false]
  }

  /** A chain's descriptors are out, so a chain over free descriptors meets none of the others. */
  lemma EnterApart(free: seq<bool>, chains: map<nat, Chain>, h: nat, c: Chain, g: nat, i: nat)
    requires Owned(free, chains) && ThreeFree(free, h, c.data, c.status) && g in chains && In(chains[g], g, i)
    ensures !In(c, h, i)
  {
  }

  lemma EnterOwned(free: seq<bool>, chains: map<nat, Chain>, h: nat, c: Chain)
    requires Owned(free, chains) && ThreeFree(free, h, c.data, c.status)
    ensures h !in chains && Owned(Occupy(free, h, c.data, c.status), chains[h := c])
  {
    var free', chains' := Occupy(free, h, c.data, c.status), chains[h := c];
    assert h !in chains by {
      if h in chains { assert In(chains[h], h, h); }
    }
    forall i | 0 <= i < NUM && !free'[i] ensures exists g :: g in chains' && In(chains'[g], g, i) {
      if free[i] {
        assert In(chains'[h], h, i);
      } else {
        var g :| g in chains && In(chains[g], g, i);
        assert In(chains'[g], g, i);
      }
    }
    forall g, f, i: nat | g in chains' && f in chains' && In(chains'[g], g, i) && In(chains'[f], f, i) ensures g == f {
      if g != h && f == h { EnterApart(free, chains, h, c, g, i); }
      if f != h && g == h { EnterApart(free, chains, h, c, f, i); }
    }
  }

  lemma EnterCount(free: seq<bool>, h: nat, d: nat, s: nat)
    requires ThreeFree(free, h, d, s)
    ensures FreeCount(Occupy(free, h, d, s)) == FreeCount(free) - 3
  {
    FreeCountUpdate(free, h, false);
    FreeCountUpdate(free[h := false], d, false);
    FreeCountUpdate(free[h := false][d := false], s, false);
  }

  /** Rewriting free descriptors disturbs no chain. */
  lemma LinkedFrame(free: seq<bool>, desc: seq<Desc>, desc': seq<Desc>, chains: map<nat, Chain>)
    requires Owned(free, chains) && AllLinked(desc, chains) && |desc| == |desc'| == NUM
    requires forall i :: 0 <= i < NUM && !free[i] ==> desc'[i] == desc[i]
    ensures AllLinked(desc', chains)
  {
    forall h | h in chains ensures Linked(desc', h, chains[h]) {
      var c := chains[h];
      assert Linked(desc, h, c);
      assert In(c, h, h) && In(c, h, c.data) && In(c, h, c.status);
    }
  }

  lemma EnterPhase(chains: map<nat, Chain>, submitted: seq<nat>, taken: nat, completed: seq<nat>, seen: nat, h: nat,
                   c: Chain)
    requires InPhase(chains, submitted, taken, completed, seen) && h !in chains && c.phase == Queued(|submitted|)
    ensures InPhase(chains[h := c], submitted + [h], taken, completed, seen)
  {
  }

  // ---------------------------------------------------------------- a request moves on

  /** Only the phase of h changes. */
  ghost function Advance(chains: map<nat, Chain>, h: nat, phase: Phase): map<nat, Chain>
    requires h in chains
  {
    chains[h := chains[h].(phase := phase)]
  }

  lemma AdvanceOwned(free: seq<bool>, chains: map<nat, Chain>, h: nat, phase: Phase)
    requires Owned(free, chains) && h in chains
    ensures Owned(free, Advance(chains, h, phase)) && |Advance(chains, h, phase)| == |chains|
  {
    var chains' := Advance(chains, h, phase);
    assert chains'.Keys == chains.Keys;
    assert |chains'.Keys| == |chains'| && |chains.Keys| == |chains|;
    forall g, i: nat | g in chains ensures In(chains'[g], g, i) <==> In(chains[g], g, i) {
    }
    forall i | 0 <= i < NUM && !free[i] ensures exists g :: g in chains' && In(chains'[g], g, i) {
      var g :| g in chains && In(chains[g], g, i);
      assert In(chains'[g], g, i);
    }
  }

  lemma AdvanceLinked(desc: seq<Desc>, chains: map<nat, Chain>, h: nat, phase: Phase)
    requires AllLinked(desc, chains) && h in chains
    ensures AllLinked(desc, Advance(chains, h, phase))
  {
    var chains' := Advance(chains, h, phase);
    forall g | g in chains' ensures Linked(desc, g, chains'[g]) {
      assert Linked(desc, g, chains[g]);
    }
  }

  lemma TakePhase(chains: map<nat, Chain>, submitted: seq<nat>, taken: nat, completed: seq<nat>, seen: nat)
    requires InPhase(chains, submitted, taken, completed, seen) && taken < |submitted|
    ensures submitted[taken] in chains && chains[submitted[taken]].phase == Queued(taken)
    ensures InPhase(Advance(chains, submitted[taken], Taken), submitted, taken + 1, completed, seen)
  {
  }

  lemma CompletePhase(chains: map<nat, Chain>, submitted: seq<nat>, taken: nat, completed: seq<nat>, seen: nat, h: nat)
    requires InPhase(chains, submitted, taken, completed, seen) && h in chains && chains[h].phase == Taken
    ensures InPhase(Advance(chains, h, Done(|completed|)), submitted, taken, completed + [h], seen)
  {
  }

  lemma ReleasePhase(chains: map<nat, Chain>, submitted: seq<nat>, taken: nat, completed: seq<nat>, seen: nat)
    requires InPhase(chains, submitted, taken, completed, seen) && seen < |completed|
    ensures completed[seen] in chains && chains[completed[seen]].phase == Done(seen)
    ensures InPhase(Advance(chains, completed[seen], Released), submitted, taken, completed, seen + 1)
  {
  }

  // ---------------------------------------------------------------- a request leaves

  function Vacate(free: seq<bool>, h: nat, d: nat, s: nat): seq<bool>
    requires h < |free| && d < |free| && s < |free|
  {
    free[h := true][d := true][s := true]
  }

  lemma LeaveOwned(free: seq<bool>, desc: seq<Desc>, chains: map<nat, Chain>, h: nat)
    requires Owned(free, chains) && h in chains && Linked(desc, h, chains[h])
    ensures Owned(Vacate(free, h, chains[h].data, chains[h].status), chains - {h})
    ensures !free[h] && !free[chains[h].data] && !free[chains[h].status]
  {
    var c := chains[h];
    var free', chains' := Vacate(free, h, c.data, c.status), chains - {h};
    assert In(c, h, h) && In(c, h, c.data) && In(c, h, c.status);
    forall i | 0 <= i < NUM && !free'[i] ensures exists g :: g in chains' && In(chains'[g], g, i) {
      var g :| g in chains && In(chains[g], g, i);
      assert In(chains'[g], g, i);
    }
  }

  lemma LeaveCount(free: seq<bool>, h: nat, d: nat, s: nat)
    requires h < |free| && d < |free| && s < |free| && h != d && h != s && d != s
    requires !free[h] && !free[d] && !free[s]
    ensures FreeCount(Vacate(free, h, d, s)) == FreeCount(free) + 3
  {
    FreeCountUpdate(free, h, true);
    FreeCountUpdate(free[h := true], d, true);
    FreeCountUpdate(free[h := true][d := true], s, true);
  }

  lemma LeavePhase(chains: map<nat, Chain>, submitted: seq<nat>, taken: nat, completed: seq<nat>, seen: nat, h: nat)
    requires InPhase(chains, submitted, taken, completed, seen) && h in chains && chains[h].phase == Released
    ensures InPhase(chains - {h}, submitted, taken, completed, seen)
  {
  }

  // ---------------------------------------------------------------- the parts of the invariant together

  ghost predicate Wired(free: seq<bool>, desc: seq<Desc>, chains: map<nat, Chain>) {
    Owned(free, chains) && AllLinked(desc, chains) && FreeCount(free) + 3 * |chains| == NUM
  }

  /** Both rings, with the two 16-bit counters of each. */
  ghost predicate Queues(avail: seq<nat>, availIdx: nat, deviceAvailIdx: nat, used: seq<nat>, deviceUsedIdx: nat,
                         usedIdx: nat,
                         chains: map<nat, Chain>, submitted: seq<nat>, taken: nat, completed: seq<nat>, seen: nat)
  {
    && InPhase(chains, submitted, taken, completed, seen) && |chains| < NUM
    && RingHolds(avail, availIdx, submitted, taken) && deviceAvailIdx == taken % WRAP
    && RingHolds(used, deviceUsedIdx, completed, seen) && usedIdx == seen % WRAP
  }

  lemma SubmitWired(free: seq<bool>, desc: seq<Desc>, desc': seq<Desc>, chains: map<nat, Chain>, h: nat, c: Chain)
    requires Wired(free, desc, chains) && ThreeFree(free, h, c.data, c.status) && |desc| == |desc'| == NUM
    requires forall i :: 0 <= i < NUM && !free[i] ==> desc'[i] == desc[i]
    requires Linked(desc', h, c)
    ensures h !in chains && Wired(Occupy(free, h, c.data, c.status), desc', chains[h := c])
  {
    hide Linked, Owned, FreeCount;
    LinkedFrame(free, desc, desc', chains);
    EnterOwned(free, chains, h, c);
    EnterCount(free, h, c.data, c.status);
  }

  lemma SubmitQueues(avail: seq<nat>, availIdx: nat, deviceAvailIdx: nat, used: seq<nat>, deviceUsedIdx: nat,
                     usedIdx: nat,
                     chains: map<nat, Chain>, submitted: seq<nat>, taken: nat, completed: seq<nat>, seen: nat, h: nat,
                       c: Chain)
    requires Queues(avail, availIdx, deviceAvailIdx, used, deviceUsedIdx, usedIdx, chains, submitted, taken, completed,
      seen)
    requires h !in chains && c.phase == Queued(|submitted|) && |chains| + 1 < NUM
    ensures |avail| == NUM
    ensures Queues(avail[availIdx % NUM := h], (availIdx + 1) % WRAP, deviceAvailIdx, used, deviceUsedIdx, usedIdx,
                   chains[h := c], submitted + [h], taken, completed, seen)
  {
    hide InPhase;
    QueuesShort(chains, submitted, taken, completed, seen);
    RingAppend(avail, availIdx, submitted, taken, h);
    EnterPhase(chains, submitted, taken, completed, seen, h, c);
  }

  lemma SubmitRecorded(ops: seq<Op>, info: seq<Info>, chains: map<nat, Chain>, h: nat, c: Chain)
    requires AllRecorded(ops, info, chains) && |ops| == |info| == NUM && h < NUM && h !in chains && !c.phase.Done?
    ensures AllRecorded(ops[h := c.op], info[h := Info(c.buf, true, 0xff)], chains[h := c])
  {
    var ops', info', chains' := ops[h := c.op], info[h := Info(c.buf, true, 0xff)], chains[h := c];
    forall g | g in chains' ensures Recorded(ops', info', g, chains'[g]) {
      if g != h { assert Recorded(ops, info, g, chains[g]); }
    }
  }

  lemma SubmitBuffers(onDisk: set<nat>, chains: map<nat, Chain>, h: nat, c: Chain)
    requires Buffers(onDisk, chains) && h !in chains && c.phase != Released
    requires forall g :: g in chains ==> chains[g].buf != c.buf
    ensures Buffers(onDisk + {c.buf}, chains[h := c])
  {
  }

  lemma AdvanceWired(free: seq<bool>, desc: seq<Desc>, chains: map<nat, Chain>, h: nat, phase: Phase)
    requires Wired(free, desc, chains) && h in chains
    ensures Wired(free, desc, Advance(chains, h, phase))
  {
    hide Linked, Owned, FreeCount;
    AdvanceOwned(free, chains, h, phase);
    AdvanceLinked(desc, chains, h, phase);
  }

  lemma TakeQueues(avail: seq<nat>, availIdx: nat, deviceAvailIdx: nat, used: seq<nat>, deviceUsedIdx: nat,
                   usedIdx: nat,
                   chains: map<nat, Chain>, submitted: seq<nat>, taken: nat, completed: seq<nat>, seen: nat)
    requires Queues(avail, availIdx, deviceAvailIdx, used, deviceUsedIdx, usedIdx, chains, submitted, taken, completed,
      seen)
    requires deviceAvailIdx != availIdx
    ensures |avail| == NUM && taken < |submitted| && avail[deviceAvailIdx % NUM] == submitted[taken]
    ensures submitted[taken] in chains && chains[submitted[taken]].phase == Queued(taken)
    ensures Queues(avail, availIdx, (deviceAvailIdx + 1) % WRAP, used, deviceUsedIdx, usedIdx,
                   Advance(chains, submitted[taken], Taken), submitted, taken + 1, completed, seen)
  {
    hide InPhase;
    QueuesShort(chains, submitted, taken, completed, seen);
    RingRead(avail, availIdx, submitted, taken, deviceAvailIdx);
    TakePhase(chains, submitted, taken, completed, seen);
    AdvanceSize(chains, submitted[taken], Taken);
  }

  lemma CompleteQueues(avail: seq<nat>, availIdx: nat, deviceAvailIdx: nat, used: seq<nat>, deviceUsedIdx: nat,
                       usedIdx: nat,
                       chains: map<nat, Chain>, submitted: seq<nat>, taken: nat, completed: seq<nat>, seen: nat, h: nat)
    requires Queues(avail, availIdx, deviceAvailIdx, used, deviceUsedIdx, usedIdx, chains, submitted, taken, completed,
      seen)
    requires h in chains && chains[h].phase == Taken
    ensures |used| == NUM
    ensures Queues(avail, availIdx, deviceAvailIdx, used[deviceUsedIdx % NUM := h], (deviceUsedIdx + 1) % WRAP, usedIdx,
                   Advance(chains, h, Done(|completed|)), submitted, taken, completed + [h], seen)
  {
    hide InPhase;
    QueuesShort(chains, submitted, taken, completed, seen);
    RingAppend(used, deviceUsedIdx, completed, seen, h);
    CompletePhase(chains, submitted, taken, completed, seen, h);
    AdvanceSize(chains, h, Done(|completed|));
  }

  lemma ReleaseQueues(avail: seq<nat>, availIdx: nat, deviceAvailIdx: nat, used: seq<nat>, deviceUsedIdx: nat,
                      usedIdx: nat,
                      chains: map<nat, Chain>, submitted: seq<nat>, taken: nat, completed: seq<nat>, seen: nat)
    requires Queues(avail, availIdx, deviceAvailIdx, used, deviceUsedIdx, usedIdx, chains, submitted, taken, completed,
      seen)
    ensures |used| == NUM && seen <= |completed| && (usedIdx == deviceUsedIdx <==> seen == |completed|)
    ensures seen < |completed| ==>
      && used[usedIdx % NUM] == completed[seen]
      && completed[seen] in chains && chains[completed[seen]].phase == Done(seen)
      && Queues(avail, availIdx, deviceAvailIdx, used, deviceUsedIdx, (usedIdx + 1) % WRAP,
                Advance(chains, completed[seen], Released), submitted, taken, completed, seen + 1)
  {
    hide InPhase;
    QueuesShort(chains, submitted, taken, completed, seen);
    RingRead(used, deviceUsedIdx, completed, seen, usedIdx);
    if seen < |completed| {
      ReleasePhase(chains, submitted, taken, completed, seen);
      AdvanceSize(chains, completed[seen], Released);
    }
  }

  lemma AdvanceSize(chains: map<nat, Chain>, h: nat, phase: Phase)
    requires h in chains
    ensures |Advance(chains, h, phase)| == |chains|
  {
    var chains' := Advance(chains, h, phase);
    assert chains'.Keys == chains.Keys;
    assert |chains'.Keys| == |chains'| && |chains.Keys| == |chains|;
  }

  lemma LeaveWired(free: seq<bool>, desc: seq<Desc>, desc': seq<Desc>, chains: map<nat, Chain>, h: nat)
    requires Wired(free, desc, chains) && h in chains && |desc| == |desc'| == |free| == NUM
    requires forall i :: 0 <= i < NUM && !In(chains[h], h, i) ==> desc'[i] == desc[i]
    ensures var c := chains[h];
      c.data < NUM && c.status < NUM && h < NUM && Wired(Vacate(free, h, c.data, c.status), desc', chains - {h})
      && FreeCount(Vacate(free, h, c.data, c.status)) == FreeCount(free) + 3 &&
        |Vacate(free, h, c.data, c.status)| == NUM
  {
    hide Owned, FreeCount;
    var c := chains[h];
    assert Linked(desc, h, c);
    LeaveOwned(free, desc, chains, h);
    LeaveCount(free, h, c.data, c.status);
    LeaveSize(chains, h);
    LeaveLinked(desc, chains, h);
    VacateIsFree(free, chains[h], h);
    LinkedFrame(Vacate(free, h, c.data, c.status), desc, desc', chains - {h});
  }

  lemma LeaveLinked(desc: seq<Desc>, chains: map<nat, Chain>, h: nat)
    requires AllLinked(desc, chains)
    ensures AllLinked(desc, chains - {h})
  {
    forall g | g in chains && g != h ensures Linked(desc, g, chains[g]) {
    }
  }

  lemma VacateIsFree(free: seq<bool>, c: Chain, h: nat)
    requires |free| == NUM && h < NUM && c.data < NUM && c.status < NUM
    ensures forall i :: 0 <= i < NUM && !Vacate(free, h, c.data, c.status)[i] ==> !In(c, h, i)
  {
  }

  lemma LeaveSize(chains: map<nat, Chain>, h: nat)
    requires h in chains
    ensures |chains - {h}| == |chains| - 1
  {
    assert (chains - {h}).Keys == chains.Keys - {h};
    assert |chains.Keys| == |chains| && |(chains - {h}).Keys| == |chains - {h}|;
  }

  // ---------------------------------------------------------------- sectors

  /** The first 512-byte sector of a block; block numbers are 32-bit, and so is the product. */
  function Sector(blockno: nat): nat {
    (blockno * 2) % 0x1_0000_0000
  }

  /** Two blocks of a disk have different sectors exactly if they are not 2^31 apart. */
  lemma SectorsDiffer(a: nat, b: nat)
    requires a < b < 0x1_0000_0000
    ensures Sector(a) == Sector(b) <==> b == a + 0x8000_0000
    ensures Sector(a) == 2 * a <==> a < 0x8000_0000
  {
  }

  // ---------------------------------------------------------------- the driver and its device

  class Disk {
    // kept by the driver
    var free: seq<bool>
    var desc: seq<Desc>
    var ops: seq<Op>
    var info: seq<Info>
    var usedIdx: nat                  // how far the interrupt handler has looked
    var onDisk: set<nat>              // the buffers whose disk flag is 1
    // shared with the device
    var availRing: seq<nat>
    var availIdx: nat
    var usedRing: seq<nat>
    var deviceUsedIdx: nat
    // kept by the device
    var deviceAvailIdx: nat
    var store: map<nat, Block>        // sector pair -> contents
    // the memory of the buffers
    var data: map<nat, Block>

    ghost var chains: map<nat, Chain>
    ghost var submitted: seq<nat>
    ghost var taken: nat
    ghost var completed: seq<nat>
    ghost var seen: nat

    ghost predicate Valid()
      reads this
    {
      && Wired(free, desc, chains) && |free| == |desc| == NUM
      && AllRecorded(ops, info, chains) && |ops| == |info| == NUM
      && Queues(availRing, availIdx, deviceAvailIdx, usedRing, deviceUsedIdx, usedIdx, chains, submitted, taken,
        completed, seen)
      && Buffers(onDisk, chains)
    }

    constructor ()
      ensures Valid() && chains == map[] && onDisk == {}
    {
      free := seq(NUM, i => true);
      desc := seq(NUM, i => EMPTY);
      ops := seq(NUM, i => Op(false, 0));
      info := seq(NUM, i => Info(0, false, 0));
      availRing, usedRing := seq(NUM, i => 0), seq(NUM, i => 0);
      availIdx, deviceAvailIdx, deviceUsedIdx, usedIdx := 0, 0, 0, 0;
      onDisk, store, data := {}, map[], map[];
      chains, submitted, taken, completed, seen := map[], [], 0, [], 0;
      new;
      assert free == [true, true, true, true, true, true, true, true];
      assert FreeCount(free) == 8 by {
        AllFree(free);
      }
    }

    /** Find a free descriptor and mark it as taken; -1 when there is none. */
    method AllocDesc() returns (i: int)
      requires |free| == NUM
      modifies this`free
      ensures |free| == NUM
      ensures 0 <= i ==> i < NUM && old(free)[i] && free == old(free)[i := false]
      ensures i < 0 ==> free == old(free) && FreeCount(free) == 0
    {
      i := 0;
      while i < NUM
        invariant 0 <= i <= NUM && free == old(free)
        invariant forall j :: 0 <= j < i ==> !free[j]
      {
        if free[i] {
          free := free[i := false];
          return;
        }
        i := i + 1;
      }
      FreeCountZero(free);
      i := -1;
    }

    /** Mark a descriptor as free and wipe it. The two panics of the source are the preconditions. */
    method FreeDesc(i: nat)
      requires |free| == |desc| == NUM && i < NUM && !free[i]
      modifies this`free, this`desc
      ensures free == old(free)[i := true] && desc == old(desc)[i := EMPTY]
      ensures FreeCount(free) == FreeCount(old(free)) + 1
    {
      FreeCountUpdate(free, i, true);
      desc := desc[i := EMPTY];
      free := free[i := true];
    }

    /** All three or none: on failure the descriptors already taken are given back. */
    method Alloc3() returns (idx: seq<nat>, ok: bool)
      requires |free| == |desc| == NUM
      modifies this`free, this`desc
      ensures ok ==> |idx| == 3 && ThreeFree(old(free), idx[0], idx[1], idx[2])
      ensures ok ==> free == Occupy(old(free), idx[0], idx[1], idx[2])
      ensures !ok ==> free == old(free) && FreeCount(free) < 3
      ensures |desc| == NUM && forall i :: 0 <= i < NUM && !old(free)[i] ==> desc[i] == old(desc)[i]
    {
      idx := [];
      for i := 0 to 3
        invariant |idx| == i && |free| == NUM && desc == old(desc)
        invariant FreeCount(free) == FreeCount(old(free)) - i
        invariant forall k :: 0 <= k < i ==> idx[k] < NUM && old(free)[idx[k]]
        invariant forall j, k :: 0 <= j < k < i ==> idx[j] != idx[k]
        invariant forall k :: 0 <= k < NUM ==> (free[k] <==> old(free)[k] && k !in idx)
      {
        ghost var before := free;
        var a := AllocDesc();
        if a < 0 {
          UndoAlloc(idx, old(free));
          return idx, false;
        }
        FreeCountUpdate(before, a, false);
        idx := idx + [a];
      }
      ok := true;
    }

    /** The inner loop of alloc3_desc. */
    method UndoAlloc(idx: seq<nat>, ghost was: seq<bool>)
      requires |free| == |desc| == |was| == NUM
      requires forall k :: 0 <= k < |idx| ==> idx[k] < NUM && was[idx[k]]
      requires forall j, k :: 0 <= j < k < |idx| ==> idx[j] != idx[k]
      requires forall k :: 0 <= k < NUM ==> (free[k] <==> was[k] && k !in idx)
      modifies this`free, this`desc
      ensures free == was
      ensures |desc| == NUM && forall i :: 0 <= i < NUM && !was[i] ==> desc[i] == old(desc)[i]
    {
      for j := 0 to |idx|
        invariant |free| == |desc| == NUM
        invariant forall k :: 0 <= k < NUM ==> (free[k] <==> was[k] && k !in idx[j..])
        invariant forall i :: 0 <= i < NUM && !was[i] ==> desc[i] == old(desc)[i]
      {
        FreeDesc(idx[j]);
      }
    }

    /**
     The first half of virtio_disk_rw, from a successful alloc3_desc to the notification.
     When it fails the caller sleeps and tries again.
     */
    method Submit(b: nat, blockno: nat, write: bool) returns (h: nat, ok: bool, ghost c: Chain)
      requires Valid() && forall g :: g in chains ==> chains[g].buf != b
      modifies this`free, this`desc, this`ops, this`info, this`onDisk, this`availRing, this`availIdx, this`chains,
        this`submitted
      ensures Valid()
      ensures ok <==> FreeCount(old(free)) >= 3
      ensures !ok ==> chains == old(chains) && onDisk == old(onDisk) && submitted == old(submitted)
      ensures ok ==> c.buf == b && c.op == Op(write, Sector(blockno)) && c.phase == Queued(|old(submitted)|)
      ensures ok ==> h !in old(chains) && chains == old(chains)[h := c]
      ensures ok ==> submitted == old(submitted) + [h] && onDisk == old(onDisk) + {b}
    {
      hide Wired, Queues, FreeCount, AllRecorded, Buffers;
      EnoughRoom(free, desc, chains);
      h, ok, c := Reserve(b, blockno, write);
      if ok {
        Enqueue(h, b, c, old(ops));
      }
    }

    /** Tell the device the first index of the chain. */
    method Publish(h: nat)
      requires |availRing| == NUM
      modifies this`availRing, this`availIdx, this`submitted
      ensures availRing == old(availRing)[old(availIdx) % NUM := h] && availIdx == (old(availIdx) + 1) % WRAP
      ensures submitted == old(submitted) + [h]
    {
      availRing, availIdx := availRing[availIdx % NUM := h], (availIdx + 1) % WRAP;
      submitted := submitted + [h];
    }

    /** Record the buffer and publish the head in the avail ring. */
    method Enqueue(h: nat, b: nat, ghost c: Chain, ghost was: seq<Op>)
      requires h < NUM && h !in chains && b == c.buf && c.phase == Queued(|submitted|) && |chains| + 1 < NUM
      requires forall g :: g in chains ==> chains[g].buf != b
      requires Wired(free, desc, chains[h := c]) && |free| == |desc| == NUM
      requires AllRecorded(was, info, chains) && |was| == |info| == NUM && ops == was[h := c.op]
      requires Queues(availRing, availIdx, deviceAvailIdx, usedRing, deviceUsedIdx, usedIdx, chains, submitted, taken,
        completed, seen)
      requires Buffers(onDisk, chains)
      modifies this`info, this`onDisk, this`availRing, this`availIdx, this`chains, this`submitted
      ensures Valid()
      ensures chains == old(chains)[h := c] && submitted == old(submitted) + [h] && onDisk == old(onDisk) + {b}
    {
      hide Wired, Queues, AllRecorded, Buffers;
      SubmitQueues(availRing, availIdx, deviceAvailIdx, usedRing, deviceUsedIdx, usedIdx, chains, submitted, taken,
        completed, seen, h, c);
      SubmitRecorded(was, info, chains, h, c);
      SubmitBuffers(onDisk, chains, h, c);
      onDisk, info := onDisk + {b}, info[h := Info(b, true, 0xff)];
      Publish(h);
      chains := chains[h := c];
    }

    /** Get three descriptors and format them for the request. */
    method Reserve(b: nat, blockno: nat, write: bool) returns (h: nat, ok: bool, ghost c: Chain)
      requires Wired(free, desc, chains) && |free| == |desc| == |ops| == NUM
      modifies this`free, this`desc, this`ops
      ensures |free| == |desc| == |ops| == NUM
      ensures ok <==> FreeCount(old(free)) >= 3
      ensures !ok ==> Wired(free, desc, chains) && ops == old(ops)
      ensures ok ==> h < NUM && h !in chains && ops == old(ops)[h := c.op] && Wired(free, desc, chains[h := c])
      ensures ok ==> c.buf == b && c.op == Op(write, Sector(blockno)) && c.phase == Queued(|submitted|)
    {
      hide Wired, Linked, FreeCount;
      var idx, got := Alloc3();
      if !got {
        StillWired(free, old(desc), desc, chains);
        return 0, false, Chain(0, 0, b, Op(write, Sector(blockno)), Taken);
      }
      h, ok := idx[0], true;
      c := Chain(idx[1], idx[2], b, Op(write, Sector(blockno)), Queued(|submitted|));
      EnterCount(old(free), h, idx[1], idx[2]);
      Format(idx, b, blockno, write);
      ChainLinked(desc, h, c);
      SubmitWired(old(free), old(desc), desc, chains, h, c);
    }

    /** Format the three descriptors and the request header. */
    method Format(idx: seq<nat>, b: nat, blockno: nat, write: bool)
      requires |desc| == |ops| == NUM && |idx| == 3 && idx[0] < NUM && idx[1] < NUM && idx[2] < NUM
      requires idx[0] != idx[1] && idx[0] != idx[2] && idx[1] != idx[2]
      modifies this`desc, this`ops
      ensures ops == old(ops)[idx[0] := Op(write, Sector(blockno))]
      ensures |desc| == NUM
      ensures desc[idx[0]] == Desc(Request(idx[0]), true, false, idx[1])
      ensures desc[idx[1]] == Desc(Data(b), true, !write, idx[2])
      ensures desc[idx[2]] == Desc(Status(idx[0]), false, true, 0)
      ensures forall i :: 0 <= i < NUM && i !in idx ==> desc[i] == old(desc)[i]
    {
      ops := ops[idx[0] := Op(write, Sector(blockno))];
      desc := desc[idx[0] := Desc(Request(idx[0]), true, false, idx[1])];
      desc := desc[idx[1] := Desc(Data(b), true, !write, idx[2])];
      desc := desc[idx[2] := Desc(Status(idx[0]), false, true, 0)];
    }

    /** The device fetches the next entry of the avail ring. */
    method DeviceTake() returns (h: nat)
      requires Valid() && deviceAvailIdx != availIdx
      modifies this`deviceAvailIdx, this`chains, this`taken
      ensures Valid()
      ensures old(taken) < |submitted| && h == submitted[old(taken)] && taken == old(taken) + 1
      ensures h in old(chains) && old(chains)[h].phase == Queued(old(taken)) && chains == Advance(old(chains), h, Taken)
    {
      hide Wired, Queues;
      TakeQueues(availRing, availIdx, deviceAvailIdx, usedRing, deviceUsedIdx, usedIdx, chains, submitted, taken,
        completed, seen);
      h := availRing[deviceAvailIdx % NUM];
      AdvanceWired(free, desc, chains, h, Taken);
      deviceAvailIdx := (deviceAvailIdx + 1) % WRAP;
      chains, taken := Advance(chains, h, Taken), taken + 1;
    }

    /**
     The device carries out a request it has fetched, following the descriptors, and
     reports it in the used ring. It may do so in any order.
     */
    method DeviceComplete(h: nat)
      requires Valid() && h in chains && chains[h].phase == Taken
      modifies this`store, this`data, this`info, this`usedRing, this`deviceUsedIdx, this`chains, this`completed
      ensures Valid()
      ensures completed == old(completed) + [h] && chains == Advance(old(chains), h, Done(|old(completed)|))
      ensures var c := old(chains)[h];
        && store == (if c.op.write then old(store)[c.op.sector := Contents(old(data), c.buf)] else old(store))
        && data == (if c.op.write then old(data) else old(data)[c.buf := Contents(old(store), c.op.sector)])
    {
      hide Wired, Queues, Buffers, AllRecorded;
      ChainOf(free, desc, ops, info, chains, h);
      Transfer(h, chains[h]);
      Report(h);
    }

    /** The device writes the status byte and an entry of the used ring. */
    method Report(h: nat)
      requires Valid() && h in chains && chains[h].phase == Taken
      modifies this`info, this`usedRing, this`deviceUsedIdx, this`chains, this`completed
      ensures Valid()
      ensures completed == old(completed) + [h] && chains == Advance(old(chains), h, Done(|old(completed)|))
    {
      hide Wired, Queues, Buffers, AllRecorded, Linked;
      ChainOf(free, desc, ops, info, chains, h);
      ghost var done := Done(|completed|);
      CompleteQueues(availRing, availIdx, deviceAvailIdx, usedRing, deviceUsedIdx, usedIdx, chains, submitted, taken,
        completed, seen, h);
      AdvanceWired(free, desc, chains, h, done);
      CompleteRecorded(ops, info, chains, h, done);
      AdvanceBuffers(onDisk, chains, h, done);
      info := info[h := info[h].(status := 0)];
      usedRing, deviceUsedIdx := usedRing[deviceUsedIdx % NUM := h], (deviceUsedIdx + 1) % WRAP;
      chains, completed := Advance(chains, h, done), completed + [h];
    }

    /** The data movement of one request, found by walking its chain. */
    method Transfer(h: nat, ghost c: Chain)
      requires |desc| == |ops| == NUM && Linked(desc, h, c) && ops[h] == c.op
      modifies this`store, this`data
      ensures store == if c.op.write then old(store)[c.op.sector := Contents(old(data), c.buf)] else old(store)
      ensures data == if c.op.write then old(data) else old(data)[c.buf := Contents(old(store), c.op.sector)]
      ensures desc[desc[desc[h].next].next].addr == Status(h)
    {
      var op := ops[desc[h].addr.op];
      var d := desc[desc[h].next];
      if d.deviceWrites {
        data := data[d.addr.buf := Contents(store, op.sector)];
      } else {
        store := store[op.sector := Contents(data, d.addr.buf)];
      }
    }

    /** One turn of the loop in virtio_disk_intr. */
    method ReleaseOne()
      requires Valid() && usedIdx != deviceUsedIdx
      modifies this`onDisk, this`usedIdx, this`chains, this`seen
      ensures Valid() && old(seen) < |completed| && seen == old(seen) + 1
      ensures var h := completed[old(seen)];
        && h in old(chains) && old(chains)[h].phase == Done(old(seen))
        && chains == Advance(old(chains), h, Released)
        && old(chains)[h].buf in old(onDisk) && onDisk == old(onDisk) - {old(chains)[h].buf}
    {
      hide Wired, Queues, AllRecorded;
      ReleaseQueues(availRing, availIdx, deviceAvailIdx, usedRing, deviceUsedIdx, usedIdx, chains, submitted, taken,
        completed, seen);
      var id := usedRing[usedIdx % NUM];
      ChainOf(free, desc, ops, info, chains, id);
      assert info[id].status == 0;
      AdvanceWired(free, desc, chains, id, Released);
      CompleteRecorded(ops, info, chains, id, Released);
      onDisk, usedIdx := onDisk - {info[id].buf}, (usedIdx + 1) % WRAP;
      chains, seen := Advance(chains, id, Released), seen + 1;
    }

    /** virtio_disk_intr: every completion reported so far releases its waiter, and none is left over. */
    method Interrupt()
      requires Valid()
      modifies this`onDisk, this`usedIdx, this`chains, this`seen
      ensures Valid() && seen == |completed|
      ensures chains == ReleasedBelow(old(chains), |completed|)
      ensures forall h :: h in chains ==> !chains[h].phase.Done?
    {
      hide Wired, AllRecorded, Buffers, Queues;
      CompletionsDistinct(availRing, availIdx, deviceAvailIdx, usedRing, deviceUsedIdx, usedIdx, chains, submitted,
        taken, completed, seen);
      while usedIdx != deviceUsedIdx
        invariant Valid() && old(seen) <= seen && chains == ReleasedBelow(old(chains), seen)
        decreases |completed| - seen
      {
        ReleaseOne();
        ReleaseStep(old(chains), completed[seen - 1], seen - 1);
      }
      ReleaseQueues(availRing, availIdx, deviceAvailIdx, usedRing, deviceUsedIdx, usedIdx, chains, submitted, taken,
        completed, seen);
    }

    /** free_chain: follows the links, and stops after exactly the three descriptors of the chain. */
    method FreeChain(h: nat, ghost c: Chain) returns (ghost freed: nat)
      requires |free| == |desc| == NUM && Linked(desc, h, c) && !free[h] && !free[c.data] && !free[c.status]
      modifies this`free, this`desc
      ensures freed == 3 && |desc| == NUM
      ensures free == Vacate(old(free), h, c.data, c.status)
      ensures forall i :: 0 <= i < NUM && !In(c, h, i) ==> desc[i] == old(desc)[i]
    {
      var i := h;
      freed := 0;
      ghost var path := [h, c.data, c.status];
      while true
        invariant 0 <= freed < 3 && i == path[freed] && |free| == |desc| == NUM
        invariant forall k :: freed <= k < 3 ==> desc[path[k]] == old(desc)[path[k]] && !free[path[k]]
        invariant forall k :: 0 <= k < NUM ==> (free[k] <==> old(free)[k] || k in path[..freed])
        invariant forall k :: 0 <= k < NUM && !In(c, h, k) ==> desc[k] == old(desc)[k]
        decreases 3 - freed
      {
        var more, next := desc[i].hasNext, desc[i].next;
        FreeDesc(i);
        freed := freed + 1;
        if !more {
          assert path[..2] == [h, c.data];
          assert forall k :: 0 <= k < NUM ==> free[k] == Vacate(old(free), h, c.data, c.status)[k];
          break;
        }
        i := next;
      }
    }

    /** The last lines of virtio_disk_rw: runs once the interrupt handler has cleared the buffer's disk flag. */
    method Finish(h: nat)
      requires Valid() && h in chains && chains[h].buf !in onDisk
      modifies this`free, this`desc, this`info, this`chains
      ensures Valid() && chains == old(chains) - {h}
      ensures FreeCount(free) == FreeCount(old(free)) + 3
    {
      hide Wired, Queues, Linked, FreeCount, AllRecorded, Buffers, Vacate;
      ghost var c := chains[h];
      ReadyToLeave(free, desc, ops, info, onDisk, chains, h);
      LeaveRecorded(ops, info, chains, h);
      LeaveQueues(availRing, availIdx, deviceAvailIdx, usedRing, deviceUsedIdx, usedIdx, chains, submitted, taken,
        completed, seen, h);
      info := info[h := Info(0, false, info[h].status)];
      ghost var n := FreeChain(h, c);
      LeaveWired(old(free), old(desc), desc, chains, h);
      chains := chains - {h};
    }
  }

  function Contents(m: map<nat, Block>, k: nat): Block {
    if k in m then m[k] else []
  }

  lemma ChainOf(free: seq<bool>, desc: seq<Desc>, ops: seq<Op>, info: seq<Info>, chains: map<nat, Chain>, h: nat)
    requires Wired(free, desc, chains) && AllRecorded(ops, info, chains) && h in chains
    ensures h < NUM && Linked(desc, h, chains[h]) && Recorded(ops, info, h, chains[h])
  {
  }

  lemma ReadyToLeave(free: seq<bool>, desc: seq<Desc>, ops: seq<Op>, info: seq<Info>, onDisk: set<nat>, chains: map<nat,
                     Chain>, h: nat)
    requires Wired(free, desc, chains) && AllRecorded(ops, info, chains) && Buffers(onDisk, chains)
    requires h in chains && chains[h].buf !in onDisk && |free| == NUM
    ensures var c := chains[h];
      && h < NUM && Linked(desc, h, c) && c.phase == Released
      && c.data < NUM && c.status < NUM && !free[h] && !free[c.data] && !free[c.status]
    ensures Buffers(onDisk, chains - {h})
  {
    hide Owned, FreeCount, AllRecorded, Recorded;
    ChainOf(free, desc, ops, info, chains, h);
    LeaveOwned(free, desc, chains, h);
  }

  lemma CompleteRecorded(ops: seq<Op>, info: seq<Info>, chains: map<nat, Chain>, h: nat, phase: Phase)
    requires AllRecorded(ops, info, chains) && |info| == NUM && h in chains && h < NUM
    ensures AllRecorded(ops, info[h := info[h].(status := 0)], Advance(chains, h, phase))
    ensures !phase.Done? ==> AllRecorded(ops, info, Advance(chains, h, phase))
  {
    var chains' := Advance(chains, h, phase);
    forall g | g in chains' ensures Recorded(ops, info[h := info[h].(status := 0)], g, chains'[g]) {
      assert Recorded(ops, info, g, chains[g]);
    }
    if !phase.Done? {
      forall g | g in chains' ensures Recorded(ops, info, g, chains'[g]) {
        assert Recorded(ops, info, g, chains[g]);
      }
    }
  }

  lemma LeaveRecorded(ops: seq<Op>, info: seq<Info>, chains: map<nat, Chain>, h: nat)
    requires AllRecorded(ops, info, chains) && |info| == NUM && h < NUM
    ensures AllRecorded(ops, info[h := Info(0, false, info[h].status)], chains - {h})
  {
    var info' := info[h := Info(0, false, info[h].status)];
    forall g | g in chains && g != h ensures Recorded(ops, info', g, chains[g]) {
      assert Recorded(ops, info, g, chains[g]);
    }
  }

  lemma LeaveQueues(avail: seq<nat>, availIdx: nat, deviceAvailIdx: nat, used: seq<nat>, deviceUsedIdx: nat,
                    usedIdx: nat,
                    chains: map<nat, Chain>, submitted: seq<nat>, taken: nat, completed: seq<nat>, seen: nat, h: nat)
    requires Queues(avail, availIdx, deviceAvailIdx, used, deviceUsedIdx, usedIdx, chains, submitted, taken, completed,
      seen)
    requires h in chains && chains[h].phase == Released
    ensures Queues(avail, availIdx, deviceAvailIdx, used, deviceUsedIdx, usedIdx, chains - {h}, submitted, taken,
      completed, seen)
  {
    hide InPhase;
    LeavePhase(chains, submitted, taken, completed, seen, h);
    LeaveSize(chains, h);
  }

  lemma AdvanceBuffers(onDisk: set<nat>, chains: map<nat, Chain>, h: nat, phase: Phase)
    requires Buffers(onDisk, chains) && h in chains && chains[h].phase != Released && phase != Released
    ensures Buffers(onDisk, Advance(chains, h, phase))
  {
  }

  /** The requests whose completion comes before place n have been released. */
  ghost function ReleasedBelow(chains: map<nat, Chain>, n: nat): map<nat, Chain> {
    map h | h in chains ::
      if chains[h].phase.Done? && chains[h].phase.at < n then chains[h].(phase := Released) else chains[h]
  }

  lemma ReleaseStep(chains: map<nat, Chain>, h: nat, n: nat)
    requires h in chains && chains[h].phase == Done(n)
    requires forall g :: g in chains && chains[g].phase == Done(n) ==> g == h
    ensures Advance(ReleasedBelow(chains, n), h, Released) == ReleasedBelow(chains, n + 1)
  {
  }

  lemma CompletionsDistinct(avail: seq<nat>, availIdx: nat, deviceAvailIdx: nat, used: seq<nat>, deviceUsedIdx: nat,
                            usedIdx: nat,
                            chains: map<nat, Chain>, submitted: seq<nat>, taken: nat, completed: seq<nat>, seen: nat)
    requires Queues(avail, availIdx, deviceAvailIdx, used, deviceUsedIdx, usedIdx, chains, submitted, taken, completed,
      seen)
    ensures seen <= |completed| && chains == ReleasedBelow(chains, seen)
    ensures forall h :: h in chains && chains[h].phase.Done? ==>
      seen <= chains[h].phase.at < |completed| && completed[chains[h].phase.at] == h
  {
  }

  lemma StillWired(free: seq<bool>, desc: seq<Desc>, desc': seq<Desc>, chains: map<nat, Chain>)
    requires Wired(free, desc, chains) && |free| == |desc| == |desc'| == NUM
    requires forall i :: 0 <= i < NUM && !free[i] ==> desc'[i] == desc[i]
    ensures Wired(free, desc', chains)
  {
    LinkedFrame(free, desc, desc', chains);
  }

  lemma EnoughRoom(free: seq<bool>, desc: seq<Desc>, chains: map<nat, Chain>)
    requires Wired(free, desc, chains)
    ensures |chains| + 1 < NUM && FreeCount(free) + 3 * |chains| == NUM
  {
  }

  lemma ChainLinked(desc: seq<Desc>, h: nat, c: Chain)
    requires |desc| == NUM && h < NUM && c.data < NUM && c.status < NUM
    requires h != c.data && h != c.status && c.data != c.status
    requires desc[h] == Desc(Request(h), true, false, c.data)
    requires desc[c.data] == Desc(Data(c.buf), true, !c.op.write, c.status)
    requires desc[c.status] == Desc(Status(h), false, true, 0)
    ensures Linked(desc, h, c)
  {
  }

  lemma {:induction false} AllFree(free: seq<bool>)
    requires forall i :: 0 <= i < |free| ==> free[i]
    ensures FreeCount(free) == |free|
  {
    if free != [] {
      AllFree(free[1..]);
    }
  }
}
