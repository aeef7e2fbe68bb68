/** The two-queue unit passing of src/msg_fifo.c under every interleaving of producers and consumers. */
module MsgFifoModel {
  import opened Common
  import opened Kernel
  import opened DataQueueModel
  import Q = DataQueueModel
  import opened DataQueueWakeups
  import opened DataQueueFifo

  type Unit = nat

  /** A thread between two queue operations of `msg_push` or `msg_pop`. */
  datatype Phase = WantsReady | Filling(u: Unit) | Draining(u: Unit)

  /** `free` is `push_queue` of the source and `ready` is its `pop_queue`. */
  datatype Pool = Pool(free: Queue<Unit>, ready: Queue<Unit>, phases: map<ThreadId, Phase>)

  datatype PoolEvent =
    | TakeFree(t: ThreadId)
    | TakeReady(t: ThreadId)
    | CommitReady(t: ThreadId)
    | StartPop(t: ThreadId, wait: Wait)
    | ResumePop(t: ThreadId)
    | CommitFree(t: ThreadId)
    | PopTimeout(t: ThreadId)

  ghost predicate WellFormed(m: Pool) {
    && Q.Valid(m.free) && Q.Valid(m.ready)
  }

  /** The unit a pop returned, if it returned one. */
  function Got(before: Queue<Unit>, after: Queue<Unit>): Option<Unit> {
    if |after.popped| > |before.popped| then Some(after.popped[|after.popped| - 1]) else None
  }

  predicate PoolEnabled(m: Pool, e: PoolEvent) {
    match e
    case TakeFree(t) => t !in m.phases && t !in m.ready.callers
    case TakeReady(t) => t in m.phases && m.phases[t].WantsReady?
    case CommitReady(t) => t in m.phases && m.phases[t].Filling?
    case StartPop(t, _) => t !in m.phases && t !in m.ready.callers
    case ResumePop(t) => t in m.ready.callers && m.ready.callers[t].PopReady?
    case CommitFree(t) => t in m.phases && m.phases[t].Draining?
    case PopTimeout(t) => t in m.ready.callers
  }

  function WithPop(m: Pool, t: ThreadId, ready: Queue<Unit>): Pool {
    var got := Got(m.ready, ready);
    m.(ready := ready, phases := if got.Some? then m.phases[t := Draining(got.value)] else m.phases)
  }

  /** The results of the two commits are ignored, as the source ignores them. */
  function PoolApply(m: Pool, e: PoolEvent): (r: Pool)
    requires WellFormed(m)
  {
    if !PoolEnabled(m, e) then m else
    match e
    case TakeFree(t) =>
      var free := Q.Apply(m.free, PopBegin(t, NoWait));
      var got := Got(m.free, free);
      m.(free := free, phases := m.phases[t := if got.Some? then Filling(got.value) else WantsReady])
    case TakeReady(t) =>
      var ready := Q.Apply(m.ready, PopBegin(t, NoWait));
      var got := Got(m.ready, ready);
      m.(ready := ready, phases := if got.Some? then m.phases[t := Filling(got.value)] else m.phases - {t})
    case CommitReady(t) =>
      m.(ready := Q.Apply(m.ready, PushBegin(t, m.phases[t].u, NoWait)), phases := m.phases - {t})
    case StartPop(t, wait) => WithPop(m, t, Q.Apply(m.ready, PopBegin(t, wait)))
    case ResumePop(t) => WithPop(m, t, Q.Apply(m.ready, PopRecheck(t)))
    case CommitFree(t) =>
      m.(free := Q.Apply(m.free, PushBegin(t, m.phases[t].u, NoWait)), phases := m.phases - {t})
    case PopTimeout(t) => m.(ready := Q.Apply(m.ready, Timeout(t)))
  }

  lemma PoolApplyWellFormed(m: Pool, e: PoolEvent)
    requires WellFormed(m)
    ensures WellFormed(PoolApply(m, e))
  {
    if PoolEnabled(m, e) {
      match e
      case TakeFree(t) => ApplyValid(m.free, PopBegin(t, NoWait));
      case TakeReady(t) => ApplyValid(m.ready, PopBegin(t, NoWait));
      case CommitReady(t) => ApplyValid(m.ready, PushBegin(t, m.phases[t].u, NoWait));
      case StartPop(t, wait) => ApplyValid(m.ready, PopBegin(t, wait));
      case ResumePop(t) => ApplyValid(m.ready, PopRecheck(t));
      case CommitFree(t) => ApplyValid(m.free, PushBegin(t, m.phases[t].u, NoWait));
      case PopTimeout(t) => ApplyValid(m.ready, Timeout(t));
    }
  }

  function PoolExec(m: Pool, es: seq<PoolEvent>): (r: Pool)
    requires WellFormed(m)
    ensures WellFormed(r)
  {
    if es == [] then m else
    var before := PoolExec(m, es[..|es| - 1]);
    PoolApplyWellFormed(before, es[|es| - 1]);
    PoolApply(before, es[|es| - 1])
  }

  // Who owns what

  /** The units of a pool, numbered as `msg_init` makes them. */
  function Numbered(n: nat): (r: seq<Unit>)
    ensures |r| == n && forall i :: 0 <= i < n ==> r[i] == i
  {
    if n == 0 then [] else Numbered(n - 1) + [n - 1]
  }

  lemma CountSnoc(s: seq<Unit>, x: Unit, u: Unit)
    ensures multiset(s + [x])[u] == multiset(s)[u] + if u == x then 1 else 0
  {
  }

  lemma {:induction false} NumberedOnce(n: nat, u: Unit)
    ensures multiset(Numbered(n))[u] == if u < n then 1 else 0
  {
    if n > 0 {
      NumberedOnce(n - 1, u);
      CountSnoc(Numbered(n - 1), n - 1, u);
      assert Numbered(n) == Numbered(n - 1) + [n - 1];
    }
  }

  predicate Holds(phases: map<ThreadId, Phase>, t: ThreadId) {
    t in phases && !phases[t].WantsReady?
  }

  function Held(phases: map<ThreadId, Phase>): set<Unit> {
    set t | t in phases && !phases[t].WantsReady? :: phases[t].u
  }

  /** No two threads hold the same unit. */
  ghost predicate Exclusive(phases: map<ThreadId, Phase>) {
    forall t, v :: Holds(phases, t) && Holds(phases, v) && t != v ==> phases[t].u != phases[v].u
  }

  /** Each of the `n` units is in exactly one place: a queue, once, or the hands of one thread. */
  ghost predicate Partition(free: seq<Unit>, ready: seq<Unit>, phases: map<ThreadId, Phase>, n: nat) {
    && Exclusive(phases)
    && multiset(free) + multiset(ready) + multiset(Held(phases)) == multiset(Numbered(n))
  }

  /** Nobody is inside push. */
  ghost predicate OnlyPoppers(q: Queue<Unit>) {
    forall t :: t in q.callers ==> q.callers[t].PopAsleep? || q.callers[t].PopReady?
  }

  ghost predicate Conserved(m: Pool, n: U16) {
    && Fifo(m.free) && Fifo(m.ready)
    && m.free.size == m.ready.size == n
    && m.free.callers == map[]
    && OnlyPoppers(m.ready) && m.ready.callers.Keys !! m.phases.Keys
    && Partition(Contents(m.free), Contents(m.ready), m.phases, n)
  }

  // Queue operations on what the queue holds

  lemma PopOutcome(q: Queue<Unit>, t: ThreadId, wait: Wait)
    requires Fifo(q) && t !in q.callers
    ensures Fifo(PopPass(q, t, wait)) && PopPass(q, t, wait).size == q.size
    ensures Contents(q) == [] ==>
      Got(q, PopPass(q, t, wait)) == None && Contents(PopPass(q, t, wait)) == Contents(q)
    ensures Contents(q) != [] ==>
      && Got(q, PopPass(q, t, wait)) == Some(Contents(q)[0])
      && Contents(PopPass(q, t, wait)) == Contents(q)[1..]
  {
    hide SlotsLive;
    PopPassKeepsFifo(q, t, wait);
    EmptyTestExact(q);
    if Contents(q) != [] {
      TakeKeepsFifo(q);
    }
  }

  lemma PushOutcome(q: Queue<Unit>, t: ThreadId, u: Unit, wait: Wait)
    requires Fifo(q) && t !in q.callers && Stored(q) < q.size
    requires WrapSafe(q.size) || |q.pushed| < MODULUS_16
    ensures Fifo(PushPass(q, t, u, wait)) && PushPass(q, t, u, wait).size == q.size
    ensures Contents(PushPass(q, t, u, wait)) == Contents(q) + [u]
    ensures PushPass(q, t, u, wait).pushed == q.pushed + [u]
  {
    hide SlotsLive;
    FullTestExact(q);
    StoreKeepsFifo(q, u);
    PushPassKeepsFifo(q, t, u, wait);
  }

  lemma PopCounts(q: Queue<Unit>, t: ThreadId, wait: Wait)
    requires Fifo(q) && t !in q.callers && Contents(q) != []
    ensures |PopPass(q, t, wait).popped| == |q.popped| + 1
    ensures PopPass(q, t, wait).pushed == q.pushed
  {
    EmptyTestExact(q);
  }

  /** Who is inside the queue after a pop pass. */
  lemma PopCallers(q: Queue<Unit>, t: ThreadId, wait: Wait)
    requires Q.Valid(q) && OnlyPoppers(q) && t !in q.callers
    ensures var r := PopPass(q, t, wait);
      && OnlyPoppers(r) && r.pushed == q.pushed
      && (wait == NoWait || Got(q, r).Some? ==> r.callers == q.callers)
      && r.callers.Keys <= q.callers.Keys + {t}
  {
    HeadsSleep(q);
  }

  /** Who is inside the queue after a push pass that does not wait. */
  lemma PushCallers(q: Queue<Unit>, t: ThreadId, u: Unit)
    requires Q.Valid(q) && OnlyPoppers(q) && t !in q.callers
    ensures var r := PushPass(q, t, u, NoWait);
      && OnlyPoppers(r) && r.popped == q.popped
      && r.callers.Keys == q.callers.Keys
  {
    HeadsSleep(q);
  }

  lemma HeldAfterTake(phases: map<ThreadId, Phase>, t: ThreadId, p: Phase)
    requires !Holds(phases, t) && !p.WantsReady? && Exclusive(phases) && p.u !in Held(phases)
    ensures Exclusive(phases[t := p]) && Held(phases[t := p]) == Held(phases) + {p.u}
  {
    var r := phases[t := p];
    assert forall v :: Holds(r, v) <==> v == t || Holds(phases, v);
    assert forall v :: Holds(phases, v) ==> phases[v].u in Held(phases);
    forall u | u in Held(phases) + {p.u}
      ensures u in Held(r)
    {
      if u == p.u {
        assert r[t].u == u;
      } else {
        var v :| Holds(phases, v) && phases[v].u == u;
        assert r[v].u == u;
      }
    }
  }

  lemma HeldAfterCommit(phases: map<ThreadId, Phase>, t: ThreadId)
    requires Holds(phases, t) && Exclusive(phases)
    ensures Exclusive(phases - {t}) && Held(phases - {t}) == Held(phases) - {phases[t].u}
    ensures phases[t].u in Held(phases)
  {
    var r := phases - {t};
    assert forall v :: Holds(r, v) <==> v != t && Holds(phases, v);
    forall u | u in Held(phases) - {phases[t].u}
      ensures u in Held(r)
    {
      var v :| Holds(phases, v) && phases[v].u == u;
      assert r[v].u == u;
    }
  }

  lemma HeldUnchanged(phases: map<ThreadId, Phase>, t: ThreadId)
    requires !Holds(phases, t) && Exclusive(phases)
    ensures Exclusive(phases - {t}) && Held(phases - {t}) == Held(phases)
    ensures Exclusive(phases[t := WantsReady]) && Held(phases[t := WantsReady]) == Held(phases)
  {
    assert forall v :: Holds(phases - {t}, v) <==> Holds(phases, v);
    assert forall v :: Holds(phases[t := WantsReady], v) <==> Holds(phases, v);
    forall u | u in Held(phases)
      ensures u in Held(phases - {t}) && u in Held(phases[t := WantsReady])
    {
      var v :| Holds(phases, v) && phases[v].u == u;
      assert (phases - {t})[v].u == u && phases[t := WantsReady][v].u == u;
    }
  }

  lemma PartitionSwap(a: seq<Unit>, b: seq<Unit>, phases: map<ThreadId, Phase>, n: nat)
    requires Partition(a, b, phases, n)
    ensures Partition(b, a, phases, n)
  {
  }

  lemma PartitionTake(a: seq<Unit>, b: seq<Unit>, phases: map<ThreadId, Phase>, n: nat, t: ThreadId, p: Phase)
    requires Partition(a, b, phases, n) && !Holds(phases, t)
    requires a != [] && !p.WantsReady? && p.u == a[0]
    ensures Partition(a[1..], b, phases[t := p], n)
  {
    assert a == [a[0]] + a[1..];
    NumberedOnce(n, p.u);
    assert p.u !in Held(phases);
    HeldAfterTake(phases, t, p);
  }

  lemma PartitionCommit(a: seq<Unit>, b: seq<Unit>, phases: map<ThreadId, Phase>, n: nat, t: ThreadId)
    requires Partition(a, b, phases, n) && Holds(phases, t)
    ensures Partition(a + [phases[t].u], b, phases - {t}, n)
    ensures |a| < n
  {
    HeldAfterCommit(phases, t);
    var held := Held(phases);
    assert multiset(held) == multiset(held - {phases[t].u}) + multiset{phases[t].u};
    assert |multiset(Numbered(n))| == n;
  }

  lemma PartitionKept(a: seq<Unit>, b: seq<Unit>, phases: map<ThreadId, Phase>, n: nat, t: ThreadId)
    requires Partition(a, b, phases, n) && !Holds(phases, t)
    ensures Partition(a, b, phases - {t}, n)
    ensures Partition(a, b, phases[t := WantsReady], n)
  {
    HeldUnchanged(phases, t);
  }

  // Every step conserves the units

  lemma TakeFreeConserves(m: Pool, t: ThreadId, n: U16)
    requires Conserved(m, n) && t !in m.phases && t !in m.ready.callers
    ensures Conserved(PoolApply(m, TakeFree(t)), n)
  {
    hide PopPass, Partition, ListsValid, IndicesValid, SlotsLive, Overrun, Contents;
    PopOutcome(m.free, t, NoWait);
    PopCallers(m.free, t, NoWait);
    if Contents(m.free) == [] {
      PartitionKept(Contents(m.free), Contents(m.ready), m.phases, n, t);
    } else {
      PartitionTake(Contents(m.free), Contents(m.ready), m.phases, n, t, Filling(Contents(m.free)[0]));
    }
  }

  lemma TakeReadyConserves(m: Pool, t: ThreadId, n: U16)
    requires Conserved(m, n) && t in m.phases && m.phases[t].WantsReady?
    ensures Conserved(PoolApply(m, TakeReady(t)), n)
  {
    hide PopPass, Partition, ListsValid, IndicesValid, SlotsLive, Overrun, Contents;
    assert t in m.phases.Keys;
    PopOutcome(m.ready, t, NoWait);
    PopCallers(m.ready, t, NoWait);
    PartitionSwap(Contents(m.free), Contents(m.ready), m.phases, n);
    if Contents(m.ready) == [] {
      PartitionKept(Contents(m.free), Contents(m.ready), m.phases, n, t);
    } else {
      var u := Contents(m.ready)[0];
      PartitionTake(Contents(m.ready), Contents(m.free), m.phases, n, t, Filling(u));
      PartitionSwap(Contents(m.ready)[1..], Contents(m.free), m.phases[t := Filling(u)], n);
    }
  }

  /** The unchecked push of `msg_pop` stores its unit behind the other free ones. */
  lemma CommitFreeConserves(m: Pool, t: ThreadId, n: U16)
    requires Conserved(m, n) && t in m.phases && m.phases[t].Draining?
    requires WrapSafe(n) || |m.free.pushed| < MODULUS_16
    ensures Conserved(PoolApply(m, CommitFree(t)), n)
    ensures Contents(PoolApply(m, CommitFree(t)).free) == Contents(m.free) + [m.phases[t].u]
    ensures PoolApply(m, CommitFree(t)).free.pushed == m.free.pushed + [m.phases[t].u]
  {
    hide PushPass, Partition, ListsValid, IndicesValid, SlotsLive;
    var u := m.phases[t].u;
    PartitionCommit(Contents(m.free), Contents(m.ready), m.phases, n, t);
    PushOutcome(m.free, t, u, NoWait);
    PushCallers(m.free, t, u);
  }

  /** The unchecked push of `msg_push` stores its unit behind the other ready ones. */
  lemma CommitReadyConserves(m: Pool, t: ThreadId, n: U16)
    requires Conserved(m, n) && t in m.phases && m.phases[t].Filling?
    requires WrapSafe(n) || |m.ready.pushed| < MODULUS_16
    ensures Conserved(PoolApply(m, CommitReady(t)), n)
    ensures Contents(PoolApply(m, CommitReady(t)).ready) == Contents(m.ready) + [m.phases[t].u]
    ensures PoolApply(m, CommitReady(t)).ready.pushed == m.ready.pushed + [m.phases[t].u]
  {
    hide PushPass, Partition, ListsValid, IndicesValid, SlotsLive;
    var u := m.phases[t].u;
    assert t in m.phases.Keys;
    PartitionSwap(Contents(m.free), Contents(m.ready), m.phases, n);
    PartitionCommit(Contents(m.ready), Contents(m.free), m.phases, n, t);
    PartitionSwap(Contents(m.ready) + [u], Contents(m.free), m.phases - {t}, n);
    PushOutcome(m.ready, t, u, NoWait);
    PushCallers(m.ready, t, u);
  }

  lemma PopConserves(m: Pool, t: ThreadId, q: Queue<Unit>, wait: Wait, n: U16)
    requires Conserved(m, n) && t !in m.phases && t !in q.callers
    requires q == m.ready || q == Leave(m.ready, t)
    requires Fifo(q)
    ensures Conserved(WithPop(m, t, PopPass(q, t, wait)), n)
  {
    hide PopPass, Partition, ListsValid, IndicesValid, SlotsLive, Overrun;
    PopOutcome(q, t, wait);
    PopCallers(q, t, wait);
    PartitionSwap(Contents(m.free), Contents(m.ready), m.phases, n);
    assert Contents(q) == Contents(m.ready);
    if Contents(m.ready) != [] {
      var u := Contents(m.ready)[0];
      PartitionTake(Contents(m.ready), Contents(m.free), m.phases, n, t, Draining(u));
      PartitionSwap(Contents(m.ready)[1..], Contents(m.free), m.phases[t := Draining(u)], n);
    }
  }

  lemma WakeConserves(m: Pool, t: ThreadId, error: Error, n: U16)
    requires Conserved(m, n) && IsPopAsleep(m.ready, t)
    ensures Conserved(m.(ready := WakePop(m.ready, t, error)), n)
  {
    WakePopValid(m.ready, t, error);
  }

  /** The truncated index of each queue is an exact slot number for every item so far. */
  ghost predicate IndicesTrusted(m: Pool, n: U16) {
    WrapSafe(n) || (|m.free.pushed| <= MODULUS_16 && |m.ready.pushed| <= MODULUS_16)
  }

  lemma PoolStepGrows(m: Pool, e: PoolEvent)
    requires WellFormed(m)
    ensures |m.free.pushed| <= |PoolApply(m, e).free.pushed|
    ensures |m.ready.pushed| <= |PoolApply(m, e).ready.pushed|
  {
  }

  lemma CommitReadyIsTrusted(m: Pool, t: ThreadId, n: U16)
    requires Conserved(m, n) && t in m.phases && m.phases[t].Filling?
    requires IndicesTrusted(PoolApply(m, CommitReady(t)), n)
    ensures WrapSafe(n) || |m.ready.pushed| < MODULUS_16
  {
    PartitionSwap(Contents(m.free), Contents(m.ready), m.phases, n);
    PartitionCommit(Contents(m.ready), Contents(m.free), m.phases, n, t);
    FullTestExact(m.ready);
    HeadsSleep(m.ready);
  }

  lemma CommitFreeIsTrusted(m: Pool, t: ThreadId, n: U16)
    requires Conserved(m, n) && t in m.phases && m.phases[t].Draining?
    requires IndicesTrusted(PoolApply(m, CommitFree(t)), n)
    ensures WrapSafe(n) || |m.free.pushed| < MODULUS_16
  {
    PartitionCommit(Contents(m.free), Contents(m.ready), m.phases, n, t);
    FullTestExact(m.free);
  }

  lemma LeaveKeepsFifo(q: Queue<Unit>, t: ThreadId)
    requires Fifo(q) && !IsPushAsleep(q, t) && !IsPopAsleep(q, t)
    ensures Fifo(Leave(q, t)) && Contents(Leave(q, t)) == Contents(q)
  {
    LeaveValid(q, t);
  }

  lemma ResumePopConserves(m: Pool, t: ThreadId, n: U16)
    requires Conserved(m, n) && t in m.ready.callers && m.ready.callers[t].PopReady?
    ensures Conserved(PoolApply(m, ResumePop(t)), n)
  {
    hide PopPass, Partition, ListsValid, IndicesValid, SlotsLive, DupFree;
    assert t in m.ready.callers.Keys;
    var left := Leave(m.ready, t);
    LeaveKeepsFifo(m.ready, t);
    if m.ready.callers[t].error == EOK {
      PopConserves(m, t, left, m.ready.callers[t].wait, n);
    }
  }

  /** A thread that was resumed leaves the callers of the ready queue. */
  lemma LeaveConserves(m: Pool, t: ThreadId, n: U16)
    requires Conserved(m, n) && t in m.ready.callers && m.ready.callers[t].PopReady?
    ensures Conserved(m.(ready := Leave(m.ready, t)), n)
  {
    hide Partition, SlotsLive, DupFree;
    LeaveKeepsFifo(m.ready, t);
  }

  /** Conservation is kept by every step. */
  lemma StepConserves(m: Pool, e: PoolEvent, n: U16)
    requires Conserved(m, n) && IndicesTrusted(PoolApply(m, e), n)
    ensures Conserved(PoolApply(m, e), n)
  {
    hide PopPass, PushPass, Partition, IndicesValid, SlotsLive, DupFree, Truncate16;
    if PoolEnabled(m, e) {
      match e
      case TakeFree(t) => TakeFreeConserves(m, t, n);
      case TakeReady(t) => TakeReadyConserves(m, t, n);
      case CommitReady(t) =>
        CommitReadyIsTrusted(m, t, n);
        CommitReadyConserves(m, t, n);
      case StartPop(t, wait) => PopConserves(m, t, m.ready, wait, n);
      case ResumePop(t) => ResumePopConserves(m, t, n);
      case CommitFree(t) =>
        CommitFreeIsTrusted(m, t, n);
        CommitFreeConserves(m, t, n);
      case PopTimeout(t) =>
        if IsPopAsleep(m.ready, t) {
          WakeConserves(m, t, ETIMEOUT, n);
        }
    }
  }

  // The pool that `msg_init` leaves

  /** A queue into which the first `k` units of `n` have been pushed. */
  function Stocked(n: U16, k: U16, slots: seq<Unit>): Queue<Unit> {
    Queue(n, 0, k, 0, slots, [], [], map[], Numbered(k), [])
  }

  function InitialPool(n: U16, readySlots: seq<Unit>): Pool {
    Pool(Stocked(n, n, Numbered(n)), Q.Init(n, 0, readySlots), map[])
  }

  lemma StockedFifo(n: U16, k: U16, slots: seq<Unit>)
    requires k <= n == |slots| && forall i :: 0 <= i < k ==> slots[i] == i
    ensures Fifo(Stocked(n, k, slots)) && Contents(Stocked(n, k, slots)) == Numbered(k)
  {
    var q := Stocked(n, k, slots);
    assert ListsValid(q);
    forall i | 0 <= i < k
      ensures q.slots[SlotOf(i, n)] == q.pushed[i]
    {
      ModUnique(i, MODULUS_16, 0, i);
      ModUnique(i, n, 0, i);
    }
  }

  lemma InitialConserved(n: U16, readySlots: seq<Unit>)
    requires |readySlots| == n
    ensures WellFormed(InitialPool(n, readySlots)) && Conserved(InitialPool(n, readySlots), n)
  {
    var m := InitialPool(n, readySlots);
    StockedFifo(n, n, Numbered(n));
    StockedFifo(n, 0, readySlots);
    assert Held(m.phases) == {};
  }

  /** Whatever the interleaving, the units stay partitioned for as long as the indices are trusted. */
  lemma {:induction false} ConservedOverRuns(n: U16, readySlots: seq<Unit>, es: seq<PoolEvent>)
    requires |readySlots| == n
    ensures WellFormed(InitialPool(n, readySlots))
    ensures var m := PoolExec(InitialPool(n, readySlots), es);
      IndicesTrusted(m, n) ==> Conserved(m, n)
  {
    var m0 := InitialPool(n, readySlots);
    InitialConserved(n, readySlots);
    if es != [] {
      var before := PoolExec(m0, es[..|es| - 1]);
      ConservedOverRuns(n, readySlots, es[..|es| - 1]);
      PoolStepGrows(before, es[|es| - 1]);
      if IndicesTrusted(PoolApply(before, es[|es| - 1]), n) {
        StepConserves(before, es[|es| - 1], n);
      }
    }
  }

  /** Two threads between their pop and their push never work on the same unit, nor on a queued one. */
  lemma HoldersAreExclusive(m: Pool, n: U16, t: ThreadId, v: ThreadId)
    requires Conserved(m, n) && Holds(m.phases, t) && Holds(m.phases, v) && t != v
    ensures m.phases[t].u != m.phases[v].u
    ensures m.phases[t].u !in Contents(m.free) && m.phases[t].u !in Contents(m.ready)
  {
    var u := m.phases[t].u;
    HeldAfterCommit(m.phases, t);
    assert multiset(Held(m.phases))[u] == 1;
    NumberedOnce(n, u);
  }

  // Sizes that do not divide 65536

  lemma PoolExecStep(m: Pool, es: seq<PoolEvent>, e: PoolEvent)
    requires WellFormed(m)
    ensures PoolExec(m, es + [e]) == PoolApply(PoolExec(m, es), e)
  {
    assert (es + [e])[..|es|] == es;
  }

  ghost predicate AtRest(m: Pool, n: U16, k: nat) {
    && WellFormed(m) && Conserved(m, n) && m.phases == map[] && m.ready.callers == map[]
    && |m.free.popped| == |m.ready.popped| == |m.ready.pushed| == k
    && |m.free.pushed| == n + k
  }

  ghost predicate AboutToReturn(m: Pool, n: U16, k: nat) {
    && WellFormed(m) && Conserved(m, n) && m.ready.callers == map[]
    && m.phases.Keys == {0} && m.phases[0].Draining?
    && |m.free.popped| == |m.ready.popped| == |m.ready.pushed| == k + 1
    && |m.free.pushed| == n + k
  }

  lemma TakeOne(m: Pool, n: U16, k: nat) returns (m1: Pool)
    requires 0 < n && n + k <= MODULUS_16 && AtRest(m, n, k)
    ensures m1 == PoolApply(m, TakeFree(0))
    ensures WellFormed(m1) && Conserved(m1, n) && m1.ready == m.ready
    ensures m1.phases.Keys == {0} && m1.phases[0].Filling?
    ensures |m1.free.popped| == k + 1 && |m1.free.pushed| == n + k
  {
    hide PopPass, PushPass, Partition, ListsValid, IndicesValid, SlotsLive;
    m1 := PoolApply(m, TakeFree(0));
    PopOutcome(m.free, 0, NoWait);
    PopCallers(m.free, 0, NoWait);
    TakeFreeConserves(m, 0, n);
    PopCounts(m.free, 0, NoWait);
  }

  lemma SendOne(m1: Pool, n: U16, k: nat) returns (m2: Pool)
    requires 0 < n && n + k <= MODULUS_16 && WellFormed(m1) && Conserved(m1, n)
    requires m1.phases.Keys == {0} && m1.phases[0].Filling? && m1.ready.callers == map[]
    requires |m1.ready.pushed| == |m1.ready.popped| == k
    ensures m2 == PoolApply(m1, CommitReady(0))
    ensures WellFormed(m2) && Conserved(m2, n) && m2.phases == map[] && m2.ready.callers == map[]
    ensures |m2.ready.pushed| == k + 1 && |m2.ready.popped| == k && m2.free == m1.free
  {
    hide PopPass, PushPass, Partition, ListsValid, IndicesValid, SlotsLive;
    m2 := PoolApply(m1, CommitReady(0));
    CommitReadyConserves(m1, 0, n);
    PushCallers(m1.ready, 0, m1.phases[0].u);
    assert m2.phases.Keys == {};
  }

  lemma ReceiveOne(m2: Pool, n: U16, k: nat) returns (m3: Pool)
    requires 0 < n && WellFormed(m2) && Conserved(m2, n) && m2.phases == map[] && m2.ready.callers == map[]
    requires |m2.free.popped| == |m2.ready.pushed| == k + 1 && |m2.ready.popped| == k
    requires |m2.free.pushed| == n + k
    ensures m3 == PoolApply(m2, StartPop(0, NoWait)) && AboutToReturn(m3, n, k)
  {
    hide PopPass, PushPass, Partition, ListsValid, IndicesValid, SlotsLive;
    m3 := PoolApply(m2, StartPop(0, NoWait));
    PopOutcome(m2.ready, 0, NoWait);
    PopCallers(m2.ready, 0, NoWait);
    PopConserves(m2, 0, m2.ready, NoWait, n);
    PopCounts(m2.ready, 0, NoWait);
  }

  /** One message through the FIFO, up to the point where the consumer is about to return the unit. */
  lemma HalfRound(m0: Pool, es: seq<PoolEvent>, n: U16, k: nat) returns (more: seq<PoolEvent>)
    requires 0 < n && n + k <= MODULUS_16 && WellFormed(m0) && AtRest(PoolExec(m0, es), n, k)
    ensures AboutToReturn(PoolExec(m0, more), n, k)
  {
    var e1, e2, e3 := TakeFree(0), CommitReady(0), StartPop(0, NoWait);
    more := es + [e1] + [e2] + [e3];
    PoolExecStep(m0, es, e1);
    PoolExecStep(m0, es + [e1], e2);
    PoolExecStep(m0, es + [e1] + [e2], e3);
    var m1 := TakeOne(PoolExec(m0, es), n, k);
    var m2 := SendOne(m1, n, k);
    var m3 := ReceiveOne(m2, n, k);
  }

  lemma {:induction false} Rounds(n: U16, readySlots: seq<Unit>, k: nat) returns (es: seq<PoolEvent>)
    requires 0 < n == |readySlots| && n + k <= MODULUS_16
    ensures WellFormed(InitialPool(n, readySlots))
    ensures AtRest(PoolExec(InitialPool(n, readySlots), es), n, k)
  {
    hide PopPass, PushPass, Partition, ListsValid, IndicesValid, SlotsLive;
    var m0 := InitialPool(n, readySlots);
    InitialConserved(n, readySlots);
    if k == 0 {
      es := [];
    } else {
      var prev := Rounds(n, readySlots, k - 1);
      var half := HalfRound(m0, prev, n, k - 1);
      var m := PoolExec(m0, half);
      es := half + [CommitFree(0)];
      PoolExecStep(m0, half, CommitFree(0));
      CommitFreeConserves(m, 0, n);
      PushCallers(m.free, 0, m.phases[0].u);
    }
  }

  /** The store at the wrapped index lands in the slot of a unit that is still queued. */
  lemma WrappedStore(q: Queue<Unit>, u: Unit)
    requires Q.Valid(q) && 0 < q.size && |q.pushed| == MODULUS_16 && |q.popped| == MODULUS_16 - q.size + 1
    requires !WrapSafe(q.size) && q.callers == map[]
    ensures var r, j := PushPass(q, 0, u, NoWait), MODULUS_16 - MODULUS_16 % q.size;
      && r == Store(q, u) && |q.popped| <= j < |q.pushed|
      && r.slots[SlotOf(j, q.size)] == u && r.slots[SlotOf(MODULUS_16, q.size)] == u
  {
    HeadsSleep(q);
    WrappedSlot(q.size);
    FullTestExact(q);
  }

  /** What a queue gives out for its t-th pop from now on. */
  function UnitAt(f: Queue<Unit>, t: ThreadId): Unit
    requires 0 < f.size == |f.slots| && 0 < t
  {
    f.slots[SlotOf(|f.popped| + t - 1, f.size)]
  }

  /** Threads 1 to `i` hold the next `i` units of the free queue `f`. */
  function TakenPhases(f: Queue<Unit>, i: nat): (r: map<ThreadId, Phase>)
    requires 0 < f.size == |f.slots|
    ensures forall t :: t in r <==> 1 <= t <= i
    ensures forall t :: 1 <= t <= i ==> r[t] == Filling(UnitAt(f, t))
  {
    if i == 0 then map[] else TakenPhases(f, i - 1)[i := Filling(UnitAt(f, i))]
  }

  /** They have just taken them from a pool whose free queue was `f`. */
  ghost predicate TakenBy(m: Pool, f: Queue<Unit>, i: nat)
    requires 0 < f.size == |f.slots|
  {
    && WellFormed(m) && m.ready.callers == map[] && m.free.callers == map[]
    && m.free.size == f.size && m.free.slots == f.slots && m.free.pushed == f.pushed
    && |m.free.popped| == |f.popped| + i
    && m.phases == TakenPhases(f, i)
  }

  lemma UnwaitedTake(q: Queue<Unit>, t: ThreadId)
    requires Q.Valid(q) && q.callers == map[] && !Overrun(q) && 0 < Stored(q)
    ensures PopPass(q, t, NoWait) == Take(q)
  {
    EmptyTestExact(q);
    HeadsSleep(q);
  }

  lemma TakeEffect(m: Pool, t: ThreadId)
    requires WellFormed(m) && t !in m.phases && m.ready.callers == map[] && m.free.callers == map[]
    requires 0 < Stored(m.free) <= m.free.size
    ensures var q := m.free;
      PoolApply(m, TakeFree(t)) ==
        m.(free := Take(q), phases := m.phases[t := Filling(q.slots[SlotOf(|q.popped|, q.size)])])
  {
    UnwaitedTake(m.free, t);
    hide PopPass;
    assert Got(m.free, Take(m.free)) == Some(m.free.slots[SlotOf(|m.free.popped|, m.free.size)]);
  }

  lemma TakeNext(m: Pool, f: Queue<Unit>, i: nat)
    requires 0 < f.size == |f.slots| && TakenBy(m, f, i) && i < Stored(f) <= f.size
    ensures TakenBy(PoolApply(m, TakeFree(i + 1)), f, i + 1)
  {
    hide ListsValid, IndicesValid, PoolApply, UnitAt, PopPass, SlotOf;
    PoolApplyWellFormed(m, TakeFree(i + 1));
    TakeEffect(m, i + 1);
    NextPhases(f, i);
    hide TakenPhases, WellFormed, Q.Valid;
  }

  lemma NextPhases(f: Queue<Unit>, i: nat)
    requires 0 < f.size == |f.slots|
    ensures TakenPhases(f, i + 1) == TakenPhases(f, i)[i + 1 := Filling(f.slots[SlotOf(|f.popped| + i, f.size)])]
  {
  }

  lemma {:induction false} TakeAll(m0: Pool, start: seq<PoolEvent>, f: Queue<Unit>, i: nat) returns (es: seq<PoolEvent>)
    requires 0 < f.size == |f.slots| && WellFormed(m0) && TakenBy(PoolExec(m0, start), f, 0)
    requires i <= Stored(f) <= f.size
    ensures TakenBy(PoolExec(m0, es), f, i)
  {
    hide TakenBy, PoolApply;
    if i == 0 {
      es := start;
    } else {
      var prev := TakeAll(m0, start, f, i - 1);
      TakeNext(PoolExec(m0, prev), f, i - 1);
      PoolExecStep(m0, prev, TakeFree(i));
      es := prev + [TakeFree(i)];
    }
  }

  /** All units are free, but the free queue gives out the same one at its t-th and at its last pop. */
  ghost predicate GivesTwice(m: Pool, n: U16, t: ThreadId) {
    && 0 < n == m.free.size == |m.free.slots| == Stored(m.free) && TakenBy(m, m.free, 0)
    && 1 <= t < n && UnitAt(m.free, t) == UnitAt(m.free, n)
  }

  lemma WrappedReturn(m: Pool, n: U16) returns (t: ThreadId)
    requires 0 < n && !WrapSafe(n) && AboutToReturn(m, n, MODULUS_16 - n)
    ensures GivesTwice(PoolApply(m, CommitFree(0)), n, t)
  {
    hide Partition, SlotsLive, PushPass;
    PoolApplyWellFormed(m, CommitFree(0));
    WrappedStore(m.free, m.phases[0].u);
    PushCallers(m.free, 0, m.phases[0].u);
    t := n - MODULUS_16 % n;
  }

  /** A whole turn of the counter brings the pool there. */
  lemma FullTurn(n: U16, readySlots: seq<Unit>) returns (es: seq<PoolEvent>, t: ThreadId)
    requires 0 < n == |readySlots| && !WrapSafe(n)
    ensures WellFormed(InitialPool(n, readySlots)) && GivesTwice(PoolExec(InitialPool(n, readySlots), es), n, t)
  {
    hide WrapSafe, AboutToReturn, PoolApply, AtRest, GivesTwice, InitialPool, PoolExec, Conserved, WellFormed;
    var m0 := InitialPool(n, readySlots);
    InitialConserved(n, readySlots);
    var rounds := Rounds(n, readySlots, MODULUS_16 - n);
    var half := HalfRound(m0, rounds, n, MODULUS_16 - n);
    t := WrappedReturn(PoolExec(m0, half), n);
    PoolExecStep(m0, half, CommitFree(0));
    es := half + [CommitFree(0)];
  }

  lemma TwoTookIt(m: Pool, f: Queue<Unit>, n: U16, t: ThreadId)
    requires 0 < n == f.size == |f.slots| && TakenBy(m, f, n) && 1 <= t < n && UnitAt(f, t) == UnitAt(f, n)
    ensures !Exclusive(m.phases)
  {
    hide UnitAt;
    assert Holds(m.phases, t) && Holds(m.phases, n);
  }

  /** If the size does not divide 65536, a schedule lets two threads work on the same unit at once. */
  lemma SameUnitTwice(n: U16, readySlots: seq<Unit>) returns (es: seq<PoolEvent>)
    requires 0 < n == |readySlots| && !WrapSafe(n)
    ensures WellFormed(InitialPool(n, readySlots))
    ensures !Exclusive(PoolExec(InitialPool(n, readySlots), es).phases)
  {
    var start, t := FullTurn(n, readySlots);
    hide WrapSafe, PoolApply, TakenBy, InitialPool, PoolExec, Exclusive, WellFormed, UnitAt;
    var m0 := InitialPool(n, readySlots);
    var f := PoolExec(m0, start).free;
    es := TakeAll(m0, start, f, n);
    TwoTookIt(PoolExec(m0, es), f, n, t);
  }

  /**
   * Over all runs of any length the message FIFO conserves its units, and over all runs no two threads work on
   * the same unit, exactly when the number of units divides 65536.
   */
  lemma ConservedExactly(n: U16, readySlots: seq<Unit>)
    requires 0 < n == |readySlots|
    ensures WellFormed(InitialPool(n, readySlots))
    ensures (forall es :: Conserved(PoolExec(InitialPool(n, readySlots), es), n)) <==> MODULUS_16 % n == 0
    ensures (forall es :: Exclusive(PoolExec(InitialPool(n, readySlots), es).phases)) <==> MODULUS_16 % n == 0
  {
    var m0 := InitialPool(n, readySlots);
    InitialConserved(n, readySlots);
    if WrapSafe(n) {
      forall es
        ensures Conserved(PoolExec(m0, es), n) && Exclusive(PoolExec(m0, es).phases)
      {
        ConservedOverRuns(n, readySlots, es);
      }
    } else {
      var es := SameUnitTwice(n, readySlots);
      assert !Conserved(PoolExec(m0, es), n);
    }
  }

  /** Pushing the next unit while the pool is stocked. */
  lemma StockOne(n: U16, k: U16, slots: seq<Unit>)
    requires k < n == |slots| && forall i :: 0 <= i < k ==> slots[i] == i
    ensures Q.Valid(Stocked(n, k, slots))
    ensures PushPass(Stocked(n, k, slots), 0, k, NoWait) == Stocked(n, k + 1, slots[k := k])
  {
    StockedFifo(n, k, slots);
    assert Numbered(k + 1) == Numbered(k) + [k];
    ModUnique(k, n, 0, k);
    ModUnique(k + 1, MODULUS_16, 0, k + 1);
  }

  // One call at a time

  lemma PartitionCount(a: seq<Unit>, b: seq<Unit>, phases: map<ThreadId, Phase>, n: nat)
    requires Partition(a, b, phases, n)
    ensures |a| + |b| + |Held(phases)| == n
    ensures forall t :: Holds(phases, t) ==> phases[t].u < n && phases[t].u !in a && phases[t].u !in b
    ensures forall u :: u in a || u in b ==> u < n
  {
    var all := multiset(a) + multiset(b) + multiset(Held(phases));
    assert |all| == |multiset(Numbered(n))| == n;
    forall t | Holds(phases, t)
      ensures phases[t].u < n && phases[t].u !in a && phases[t].u !in b
    {
      assert phases[t].u in Held(phases);
      NumberedOnce(n, phases[t].u);
    }
    forall u | u in a || u in b
      ensures u < n
    {
      assert all[u] >= 1;
      NumberedOnce(n, u);
    }
  }

  function Solo(t: ThreadId, p: Phase): map<ThreadId, Phase> {
    map[t := p]
  }

  /** A producer that finds a free unit. */
  lemma SoloTakeFree(m: Pool, t: ThreadId, n: U16)
    requires Conserved(m, n) && m.phases == map[] && t !in m.ready.callers
    ensures var free := PopPass(m.free, t, NoWait);
      if Contents(m.free) == [] then
        Got(m.free, free) == None && Conserved(Pool(free, m.ready, Solo(t, WantsReady)), n)
      else
        Got(m.free, free).Some? && Conserved(Pool(free, m.ready, Solo(t, Filling(Got(m.free, free).value))), n)
  {
    hide PopPass, PushPass, Partition, ListsValid, IndicesValid, SlotsLive;
    TakeFreeConserves(m, t, n);
    PopOutcome(m.free, t, NoWait);
  }

  /** A producer that found none takes the oldest ready unit. */
  lemma SoloTakeReady(m: Pool, t: ThreadId, n: U16)
    requires Conserved(m, n) && m.phases == Solo(t, WantsReady)
    ensures var ready := PopPass(m.ready, t, NoWait);
      if Contents(m.ready) == [] then
        Got(m.ready, ready) == None && Conserved(Pool(m.free, ready, map[]), n)
      else
        && Got(m.ready, ready).Some? && Contents(ready) == Contents(m.ready)[1..]
        && Conserved(Pool(m.free, ready, Solo(t, Filling(Got(m.ready, ready).value))), n)
  {
    hide PopPass, PushPass, Partition, ListsValid, IndicesValid, SlotsLive;
    TakeReadyConserves(m, t, n);
    PopOutcome(m.ready, t, NoWait);
    assert m.phases - {t} == map[];
    assert forall u :: m.phases[t := Filling(u)] == Solo(t, Filling(u));
  }

  /** The unit goes behind the ready ones although nobody looks at the result. */
  lemma SoloCommitReady(m: Pool, t: ThreadId, u: Unit, n: U16)
    requires Conserved(m, n) && m.phases == Solo(t, Filling(u))
    requires WrapSafe(n) || |m.ready.pushed| < MODULUS_16
    ensures var ready := PushPass(m.ready, t, u, NoWait);
      Contents(ready) == Contents(m.ready) + [u] && Conserved(Pool(m.free, ready, map[]), n)
  {
    hide PopPass, PushPass, Partition, ListsValid, IndicesValid, SlotsLive;
    CommitReadyConserves(m, t, n);
    assert m.phases - {t} == map[];
  }

  /** A consumer enters the ready queue, or tests it again after it was resumed and left the callers. */
  lemma SoloPop(m: Pool, t: ThreadId, q: Queue<Unit>, wait: Wait, n: U16)
    requires Conserved(m, n) && m.phases == map[] && t !in q.callers && Fifo(q)
    requires q == m.ready || q == Leave(m.ready, t)
    ensures var ready := PopPass(q, t, wait);
      && Contents(q) == Contents(m.ready)
      && if Contents(m.ready) == [] then
        Got(q, ready) == None && Contents(ready) == [] && Conserved(Pool(m.free, ready, map[]), n)
      else
        && Got(q, ready) == Some(Contents(m.ready)[0]) && Contents(ready) == Contents(m.ready)[1..]
        && Conserved(Pool(m.free, ready, Solo(t, Draining(Contents(m.ready)[0]))), n)
  {
    hide PopPass, PushPass, Partition, ListsValid, IndicesValid, SlotsLive;
    PopConserves(m, t, q, wait, n);
    PopOutcome(q, t, wait);
  }

  /** A consumer that was resumed leaves with its error, or tests again. */
  lemma SoloResume(m: Pool, t: ThreadId, n: U16)
    requires Conserved(m, n) && m.phases == map[] && t in m.ready.callers && m.ready.callers[t].PopReady?
    ensures var c, ready := m.ready.callers[t], Q.Apply(m.ready, PopRecheck(t));
      if c.error != EOK then
        && Got(m.ready, ready) == None && Contents(ready) == Contents(m.ready)
        && Conserved(Pool(m.free, ready, map[]), n)
      else if Contents(m.ready) == [] then
        Got(m.ready, ready) == None && Contents(ready) == [] && Conserved(Pool(m.free, ready, map[]), n)
      else
        && Got(m.ready, ready) == Some(Contents(m.ready)[0]) && Contents(ready) == Contents(m.ready)[1..]
        && Conserved(Pool(m.free, ready, Solo(t, Draining(Contents(m.ready)[0]))), n)
  {
    var c, left := m.ready.callers[t], Leave(m.ready, t);
    LeaveKeepsFifo(m.ready, t);
    LeaveConserves(m, t, n);
    if c.error == EOK {
      SoloPop(m, t, left, c.wait, n);
    }
    hide PopPass, Partition, ListsValid, IndicesValid, SlotsLive, Fifo, Contents;
  }

  lemma SoloCommitFree(m: Pool, t: ThreadId, u: Unit, n: U16)
    requires Conserved(m, n) && m.phases == Solo(t, Draining(u))
    requires WrapSafe(n) || |m.free.pushed| < MODULUS_16
    ensures Conserved(Pool(PushPass(m.free, t, u, NoWait), m.ready, map[]), n)
  {
    hide PopPass, PushPass, Partition, ListsValid, IndicesValid, SlotsLive;
    CommitFreeConserves(m, t, n);
    assert m.phases - {t} == map[];
  }

  /** What the ready queue's wait list sees of a pass: only a push wakes, and it wakes the first. */
  lemma WaitingPoppers(q: Queue<Unit>, t: ThreadId, u: Unit, wait: Wait)
    requires Q.Valid(q) && OnlyPoppers(q)
    ensures PopPass(q, t, wait).popList == if Empty(q) && wait != NoWait then q.popList + [t] else q.popList
    ensures PopPass(q, t, wait).pushed == q.pushed
    ensures var r := PushPass(q, t, u, NoWait);
      r.popList == if Full(q) || q.popList == [] then q.popList else q.popList[1..]
  {
    HeadsSleep(q);
  }
}
