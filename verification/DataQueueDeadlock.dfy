/** When threads of the data queue wait for each other, and that every queue can get there. */
module DataQueueDeadlock {
  import opened Common
  import opened Kernel
  import opened DataQueueModel
  import opened DataQueueWakeups
  import opened DataQueueFifo

  /** A pusher and a popper sleep, and nobody is on the way who would wake them. */
  ghost predicate Deadlocked<T>(q: Queue<T>) {
    q.pushList != [] && q.popList != [] && WokenPushers(q) == {} && WokenPoppers(q) == {}
  }

  /**
   * After every schedule: a deadlock needs a queue of no slots, or one that was pushed a whole turn of the
   * 16-bit counter ahead, so that it looks empty. A queue with slots that is not overrun is never deadlocked.
   */
  lemma DeadlockNeedsALap<T>(size: U16, lwm: U16, slots: seq<T>, es: seq<Event<T>>)
    requires |slots| == size
    ensures Valid(Init(size, lwm, slots))
    ensures var q := Exec(Init(size, lwm, slots), es);
      && (Deadlocked(q) ==> Empty(q) && (size == 0 || Stored(q) >= MODULUS_16))
      && (0 < size && !Overrun(q) ==> !Deadlocked(q))
  {
    NoLostWakeups(size, lwm, slots, es);
    ConfigKept(Init(size, lwm, slots), es);
    var q := Exec(Init(size, lwm, slots), es);
    if Deadlocked(q) {
      assert Items(q) == 0;
      TruncateNear(q.putIndex - q.getIndex);
      if Stored(q) < MODULUS_16 {
        DifferenceBelowStored(q);
        TruncateNear(Stored(q));
      }
    }
  }

  /** An overrun queue has been popped almost a whole turn of the counter. */
  ghost predicate OverrunIsOld<T>(q: Queue<T>) {
    Overrun(q) ==> |q.popped| >= MODULUS_16 - q.size
  }

  lemma PushPassKeepsAge<T>(q: Queue<T>, t: ThreadId, item: T, wait: Wait)
    requires Valid(q) && OverrunIsOld(q) && t !in q.callers && 0 < q.size
    ensures OverrunIsOld(PushPass(q, t, item, wait))
  {
    hide ListsValid;
    if !Overrun(q) {
      PassOverrunsExactly(q, t, item, wait);
      if |q.pushed| < MODULUS_16 {
        TruncateNear(|q.pushed|);
        TruncateNear(|q.popped|);
      }
    }
  }

  lemma StepKeepsAge<T>(q: Queue<T>, e: Event<T>)
    requires Valid(q) && OverrunIsOld(q) && 0 < q.size
    ensures OverrunIsOld(Apply(q, e))
  {
    hide DupFree, Truncate16, PushPass;
    if Enabled(q, e) {
      match e
      case PushBegin(t, item, wait) => PushPassKeepsAge(q, t, item, wait);
      case PushRecheck(t) =>
        LeaveValid(q, t);
        if q.callers[t].error == EOK {
          PushPassKeepsAge(Leave(q, t), t, q.callers[t].item, q.callers[t].wait);
        }
      case _ =>
    }
  }

  lemma {:induction false} AgeOverRun<T>(q0: Queue<T>, es: seq<Event<T>>)
    requires Valid(q0) && OverrunIsOld(q0) && 0 < q0.size
    ensures OverrunIsOld(Exec(q0, es)) && Exec(q0, es).size == q0.size
  {
    ConfigKept(q0, es);
    if es != [] {
      hide OverrunIsOld, Apply;
      AgeOverRun(q0, es[..|es| - 1]);
      StepKeepsAge(Exec(q0, es[..|es| - 1]), es[|es| - 1]);
    }
  }

  /** So a deadlock takes almost two turns of pushes. */
  lemma DeadlockNeedsPushes<T>(size: U16, lwm: U16, slots: seq<T>, es: seq<Event<T>>)
    requires 0 < size == |slots|
    ensures Valid(Init(size, lwm, slots))
    ensures var q := Exec(Init(size, lwm, slots), es); Deadlocked(q) ==> |q.pushed| >= 2 * MODULUS_16 - size
  {
    DeadlockNeedsALap(size, lwm, slots, es);
    AgeOverRun(Init(size, lwm, slots), es);
  }

  // A schedule that deadlocks a queue of any size

  /** Two pushers sleep on a full queue just before the put index wraps. */
  ghost predicate Brimming<T>(q: Queue<T>, size: U16) {
    && Valid(q) && q.size == size && q.pushList == [1, 2] && q.popList == []
    && q.callers.Keys == {1, 2} && q.callers[1].PushAsleep? && q.callers[2].PushAsleep?
    && |q.pushed| == MODULUS_16 - 1 && |q.popped| == MODULUS_16 - 1 - size
  }

  /** A pusher sleeps behind wrapped indices that hide how full the queue is. */
  ghost predicate Stranded<T>(q: Queue<T>, size: U16) {
    && Valid(q) && q.size == size && q.pushList != [] && q.popList == []
    && (forall t :: t in q.callers ==> t in {1, 2} && q.callers[t].PushAsleep?)
    && |q.popped| == MODULUS_16 - size && MODULUS_16 <= |q.pushed| <= 2 * MODULUS_16 - size
  }

  lemma Brim<T>(q0: Queue<T>, item: T) returns (es: seq<Event<T>>)
    requires Valid(q0) && q0.callers == map[] && q0.pushed == q0.popped == [] && 0 < q0.size
    ensures Brimming(Exec(q0, es), q0.size)
  {
    var full := Fill(q0, item, MODULUS_16 - 1 - q0.size, q0.size);
    var q := Exec(q0, full);
    var a, b := PushBegin(1, item, Forever), PushBegin(2, item, Forever);
    es := full + [a] + [b];
    ExecStep(q0, full, a);
    ExecStep(q0, full + [a], b);
    HeadsSleep(q);
    TruncateNear(|q.popped|);
    TruncateNear(|q.pushed|);
    assert Full(q);
  }

  /** One pop, whether it wakes the first pusher or not, and one push that wraps the index. */
  lemma Wrap<T>(q: Queue<T>, item: T, size: U16) returns (r: Queue<T>)
    requires Brimming(q, size) && 0 < size
    ensures Valid(Apply(q, PopBegin(0, NoWait)))
    ensures r == Apply(Apply(q, PopBegin(0, NoWait)), PushBegin(0, item, NoWait))
    ensures Valid(r) && r.size == size && r.popList == []
    ensures |r.pushed| == MODULUS_16 && |r.popped| == MODULUS_16 - size
    ensures r.callers.Keys == {1, 2} && r.callers[2].PushAsleep?
    ensures 2 in r.pushList
    ensures r.callers[1].PushAsleep? || r.callers[1] == PushReady(q.callers[1].item, q.callers[1].wait, EOK)
  {
    ApplyValid(q, PopBegin(0, NoWait));
    var p := Apply(q, PopBegin(0, NoWait));
    ApplyValid(p, PushBegin(0, item, NoWait));
    TruncateNear(|q.popped|);
    TruncateNear(|q.pushed|);
    assert !Empty(q);
    FullTestExact(p);
    r := Apply(p, PushBegin(0, item, NoWait));
    assert IsPushAsleep(r, 2);
  }

  lemma NotFullBehindWrap<T>(q: Queue<T>, size: U16)
    requires IndicesValid(q) && q.size == size && 0 < size
    requires |q.popped| == MODULUS_16 - size && MODULUS_16 <= |q.pushed| <= 2 * MODULUS_16 - size
    ensures !Full(q) && (Empty(q) <==> |q.pushed| == 2 * MODULUS_16 - size)
  {
    TruncateNear(|q.popped|);
    TruncateNear(|q.pushed|);
  }

  /** If the first pusher was woken, it pushes and is gone. */
  lemma Strand<T>(r: Queue<T>, size: U16)
    requires Valid(r) && r.size == size && 0 < size && r.popList == []
    requires |r.pushed| == MODULUS_16 && |r.popped| == MODULUS_16 - size
    requires r.callers.Keys == {1, 2} && r.callers[2].PushAsleep?
    requires r.callers[1].PushAsleep? || (r.callers[1].PushReady? && r.callers[1].error == EOK)
    ensures Stranded(Apply(r, PushRecheck(1)), size)
  {
    ApplyValid(r, PushRecheck(1));
    NotFullBehindWrap(r, size);
    var x := Apply(r, PushRecheck(1));
    assert IsPushAsleep(x, 2);
    assert 2 in x.pushList;
  }

  lemma PushBehindWrap<T>(q: Queue<T>, item: T, size: U16)
    requires Stranded(q, size) && 0 < size && |q.pushed| < 2 * MODULUS_16 - size
    ensures var r := Apply(q, PushBegin(0, item, NoWait)); Stranded(r, size) && |r.pushed| == |q.pushed| + 1
  {
    ApplyValid(q, PushBegin(0, item, NoWait));
    NotFullBehindWrap(q, size);
  }

  /** Pushes go on until the put index meets the get index from behind. */
  lemma {:induction false} Lap<T>(q0: Queue<T>, start: seq<Event<T>>, item: T, size: U16) returns (es: seq<Event<T>>)
    requires Valid(q0) && Stranded(Exec(q0, start), size) && 0 < size
    ensures Stranded(Exec(q0, es), size) && |Exec(q0, es).pushed| == 2 * MODULUS_16 - size
    decreases 2 * MODULUS_16 - |Exec(q0, start).pushed|
  {
    hide Stranded, Apply;
    StrandedBounds(Exec(q0, start), size);
    if |Exec(q0, start).pushed| == 2 * MODULUS_16 - size {
      es := start;
    } else {
      PushBehindWrap(Exec(q0, start), item, size);
      ExecStep(q0, start, PushBegin(0, item, NoWait));
      es := Lap(q0, start + [PushBegin(0, item, NoWait)], item, size);
    }
  }

  lemma StrandedBounds<T>(q: Queue<T>, size: U16)
    requires Stranded(q, size)
    ensures |q.pushed| <= 2 * MODULUS_16 - size
  {
  }

  lemma LapDeadlocks<T>(q: Queue<T>, size: U16)
    requires Stranded(q, size) && 0 < size && |q.pushed| == 2 * MODULUS_16 - size
    ensures Deadlocked(Apply(q, PopBegin(3, Forever))) && Apply(q, PopBegin(3, Forever)).pushed == q.pushed
  {
    NotFullBehindWrap(q, size);
  }

  /** Whatever its size and low-water mark, a data queue can deadlock after `2 * 65536 - size` pushes. */
  lemma EveryQueueCanDeadlock<T>(size: U16, lwm: U16, slots: seq<T>, item: T) returns (es: seq<Event<T>>)
    requires 0 < size == |slots|
    ensures Valid(Init(size, lwm, slots)) && Deadlocked(Exec(Init(size, lwm, slots), es))
    ensures |Exec(Init(size, lwm, slots), es).pushed| == 2 * MODULUS_16 - size
  {
    var q0 := Init(size, lwm, slots);
    var brim := Brim(q0, item);
    var pop, push, again, last := PopBegin(0, NoWait), PushBegin(0, item, NoWait), PushRecheck(1), PopBegin(3, Forever);
    hide Apply, Brimming, Stranded, Deadlocked;
    ExecStep(q0, brim, pop);
    ExecStep(q0, brim + [pop], push);
    ExecStep(q0, brim + [pop] + [push], again);
    var r := Wrap(Exec(q0, brim), item, size);
    Strand(r, size);
    var lap := Lap(q0, brim + [pop] + [push] + [again], item, size);
    LapDeadlocks(Exec(q0, lap), size);
    ExecStep(q0, lap, last);
    es := lap + [last];
  }

  /**
   * The exact bound, for every low-water mark: every schedule of fewer than `n` pushes is free of deadlock if
   * and only if `n` is at most two turns of the counter less the size.
   */
  lemma DeadlockFreeExactly<T>(size: U16, lwm: U16, slots: seq<T>, item: T, n: nat)
    requires 0 < size == |slots|
    ensures Valid(Init(size, lwm, slots))
    ensures
      (forall es :: |Exec(Init(size, lwm, slots), es).pushed| < n ==> !Deadlocked(Exec(Init(size, lwm, slots), es)))
      <==> n <= 2 * MODULUS_16 - size
  {
    hide Deadlocked;
    if n <= 2 * MODULUS_16 - size {
      forall es
        ensures |Exec(Init(size, lwm, slots), es).pushed| < n ==> !Deadlocked(Exec(Init(size, lwm, slots), es))
      {
        DeadlockNeedsPushes(size, lwm, slots, es);
      }
    } else {
      var es := EveryQueueCanDeadlock(size, lwm, slots, item);
      assert |Exec(Init(size, lwm, slots), es).pushed| < n;
    }
  }
}
