/** No wake-up of the data queue is lost, whatever the schedule. */
module DataQueueWakeups {
  import opened Common
  import opened Kernel
  import opened DataQueueModel

  /** The number of items as the empty test sees it. */
  function Items<T>(q: Queue<T>): U16 {
    Truncate16(q.putIndex - q.getIndex)
  }

  /** The number of items stored and not taken. */
  function Stored<T>(q: Queue<T>): int {
    |q.pushed| - |q.popped|
  }

  /** Poppers resumed by a push that have not tested the queue again. */
  function WokenPoppers<T>(q: Queue<T>): set<ThreadId> {
    set t | t in q.callers && q.callers[t].PopReady? && q.callers[t].error == EOK
  }

  /** Pushers resumed by a pop that have not tested the queue again. */
  function WokenPushers<T>(q: Queue<T>): set<ThreadId> {
    set t | t in q.callers && q.callers[t].PushReady? && q.callers[t].error == EOK
  }

  /** Nobody sleeps in pop beside an item that no resumed popper is coming for. */
  ghost predicate NoLostPopper<T>(q: Queue<T>, slack: nat) {
    q.popList != [] ==> Items(q) <= |WokenPoppers(q)| + slack
  }

  /** A pusher sleeps only while the queue, with the resumed pushers counted, is above the low-water mark. */
  ghost predicate NoLostPusher<T>(q: Queue<T>, slack: nat) {
    q.pushList != [] ==> Stored(q) + |WokenPushers(q)| + slack >= Min(q.lwm + 1, q.size)
  }

  ghost predicate Awake<T>(q: Queue<T>) {
    Valid(q) && NoLostPopper(q, 0) && NoLostPusher(q, 0)
  }

  lemma LeaveWoken<T>(q: Queue<T>, t: ThreadId)
    ensures WokenPoppers(Leave(q, t)) == WokenPoppers(q) - {t}
    ensures WokenPushers(Leave(q, t)) == WokenPushers(q) - {t}
  {
  }

  lemma WakePopWoken<T>(q: Queue<T>, t: ThreadId, error: Error)
    requires IsPopAsleep(q, t)
    ensures WokenPushers(WakePop(q, t, error)) == WokenPushers(q)
    ensures t !in WokenPoppers(q)
    ensures WokenPoppers(WakePop(q, t, error)) == if error == EOK then WokenPoppers(q) + {t} else WokenPoppers(q)
  {
  }

  lemma WakePushWoken<T>(q: Queue<T>, t: ThreadId, error: Error)
    requires IsPushAsleep(q, t)
    ensures WokenPoppers(WakePush(q, t, error)) == WokenPoppers(q)
    ensures t !in WokenPushers(q)
    ensures WokenPushers(WakePush(q, t, error)) == if error == EOK then WokenPushers(q) + {t} else WokenPushers(q)
  {
  }

  lemma SleepOnPushWoken<T>(q: Queue<T>, t: ThreadId, item: T, wait: Wait)
    requires t !in q.callers
    ensures WokenPushers(SleepOnPush(q, t, item, wait)) == WokenPushers(q)
    ensures WokenPoppers(SleepOnPush(q, t, item, wait)) == WokenPoppers(q)
  {
  }

  lemma SleepOnPopWoken<T>(q: Queue<T>, t: ThreadId, wait: Wait)
    requires t !in q.callers
    ensures WokenPushers(SleepOnPop(q, t, wait)) == WokenPushers(q)
    ensures WokenPoppers(SleepOnPop(q, t, wait)) == WokenPoppers(q)
  {
  }

  /** The index difference falls short of the stored items only by whole turns of the counter. */
  lemma DifferenceBelowStored<T>(q: Queue<T>)
    requires IndicesValid(q)
    ensures q.putIndex - q.getIndex <= Stored(q)
    ensures Items(q) == Truncate16(Stored(q))
  {
    var turns := |q.pushed| / 0x1_0000 - |q.popped| / 0x1_0000;
    assert Stored(q) == turns * 0x1_0000 + (q.putIndex - q.getIndex);
    TruncateNear(q.putIndex - q.getIndex);
    ModUnique(Stored(q), 0x1_0000, if q.putIndex < q.getIndex then turns - 1 else turns, Items(q));
  }

  lemma ItemsAfterStore<T>(q: Queue<T>, item: T)
    requires IndicesValid(q) && 0 < q.size
    ensures Items(Store(q, item)) <= Items(q) + 1
    ensures WokenPoppers(Store(q, item)) == WokenPoppers(q)
    ensures WokenPushers(Store(q, item)) == WokenPushers(q)
  {
    hide Truncate16;
    TruncatedDifference(q.putIndex, q.getIndex);
  }

  lemma ItemsAfterTake<T>(q: Queue<T>)
    requires IndicesValid(q) && 0 < q.size && !Empty(q)
    ensures Items(Take(q)) == Items(q) - 1
    ensures WokenPoppers(Take(q)) == WokenPoppers(q)
    ensures WokenPushers(Take(q)) == WokenPushers(q)
  {
    hide Truncate16;
    TruncatedDifference(q.putIndex, q.getIndex);
  }

  lemma FullIsFull<T>(q: Queue<T>)
    requires IndicesValid(q) && Full(q)
    ensures Stored(q) >= q.size
  {
    DifferenceBelowStored(q);
  }

  lemma PushPassWakes<T>(q: Queue<T>, t: ThreadId, item: T, wait: Wait)
    requires Valid(q) && t !in q.callers && NoLostPopper(q, 0) && NoLostPusher(q, 1)
    ensures NoLostPopper(PushPass(q, t, item, wait), 0)
    ensures NoLostPusher(PushPass(q, t, item, wait), 0)
  {
    hide Truncate16, DupFree;
    if Full(q) {
      FullIsFull(q);
      SleepOnPushWoken(q, t, item, wait);
    } else {
      StoreWakes(q, item);
    }
  }

  lemma StoreWakes<T>(q: Queue<T>, item: T)
    requires Valid(q) && !Full(q) && NoLostPopper(q, 0) && NoLostPusher(q, 1)
    ensures var stored := Store(q, item);
      && (stored.popList == [] ==> NoLostPopper(stored, 0) && NoLostPusher(stored, 0))
      && (stored.popList != [] ==>
        && IsPopAsleep(stored, stored.popList[0])
        && NoLostPopper(WakePop(stored, stored.popList[0], EOK), 0)
        && NoLostPusher(WakePop(stored, stored.popList[0], EOK), 0))
  {
    hide Truncate16, DupFree;
    var stored := Store(q, item);
    ItemsAfterStore(q, item);
    if q.popList != [] {
      HeadsSleep(q);
      WakePopWoken(stored, q.popList[0], EOK);
    }
  }

  lemma PopPassWakes<T>(q: Queue<T>, t: ThreadId, wait: Wait)
    requires Valid(q) && (wait != NoWait ==> t !in q.callers) && NoLostPopper(q, 1) && NoLostPusher(q, 0)
    ensures NoLostPopper(PopPass(q, t, wait), 0)
    ensures NoLostPusher(PopPass(q, t, wait), 0)
  {
    hide DupFree;
    if Empty(q) {
      if wait != NoWait {
        SleepOnPopWoken(q, t, wait);
      }
    } else {
      TakeWakes(q);
    }
  }

  lemma TakeWakes<T>(q: Queue<T>)
    requires Valid(q) && !Empty(q) && NoLostPopper(q, 1) && NoLostPusher(q, 0)
    ensures var taken := Take(q);
      && NoLostPopper(taken, 0)
      && (taken.putIndex - taken.getIndex > q.lwm || q.pushList == [] ==> NoLostPusher(taken, 0))
      && (q.pushList != [] ==>
        && IsPushAsleep(taken, q.pushList[0])
        && NoLostPopper(WakePush(taken, q.pushList[0], EOK), 0)
        && NoLostPusher(WakePush(taken, q.pushList[0], EOK), 0))
  {
    hide Truncate16, DupFree;
    var taken := Take(q);
    TakeValid(q);
    ItemsAfterTake(q);
    DifferenceBelowStored(taken);
    if q.pushList != [] {
      HeadsSleep(q);
      WakePushWoken(taken, q.pushList[0], EOK);
    }
  }

  /** A timeout or a reset wakes with an error, and such a thread will leave without testing. */
  lemma FailedWakeKeepsAwake<T>(q: Queue<T>, t: ThreadId, error: Error)
    requires Awake(q) && error != EOK
    ensures IsPushAsleep(q, t) ==> Awake(WakePush(q, t, error))
    ensures IsPopAsleep(q, t) ==> Awake(WakePop(q, t, error))
  {
    if IsPushAsleep(q, t) {
      WakePushValid(q, t, error);
      WakePushWoken(q, t, error);
    }
    if IsPopAsleep(q, t) {
      WakePopValid(q, t, error);
      WakePopWoken(q, t, error);
    }
  }

  lemma RemovalCount(s: set<ThreadId>, t: ThreadId)
    ensures |s - {t}| == if t in s then |s| - 1 else |s|
  {
    if t !in s {
      assert s - {t} == s;
    }
  }

  /** Only a thread that was resumed without an error counts, and it stops counting when it leaves the callers. */
  lemma LeaveCounts<T>(q: Queue<T>, t: ThreadId)
    requires t in q.callers
    ensures var c, r := q.callers[t], Leave(q, t);
      && |WokenPushers(r)| == |WokenPushers(q)| - (if c.PushReady? && c.error == EOK then 1 else 0)
      && |WokenPoppers(r)| == |WokenPoppers(q)| - (if c.PopReady? && c.error == EOK then 1 else 0)
  {
    LeaveWoken(q, t);
    RemovalCount(WokenPoppers(q), t);
    RemovalCount(WokenPushers(q), t);
  }

  lemma LeavingPusher<T>(q: Queue<T>, t: ThreadId)
    requires Awake(q) && t in q.callers && q.callers[t].PushReady?
    ensures var r := Leave(q, t);
      Valid(r) && NoLostPopper(r, 0) && NoLostPusher(r, if q.callers[t].error == EOK then 1 else 0)
  {
    LeaveValid(q, t);
    LeaveCounts(q, t);
    hide Truncate16, DupFree, WokenPoppers, WokenPushers, ListsValid, IndicesValid;
  }

  lemma LeavingPopper<T>(q: Queue<T>, t: ThreadId)
    requires Awake(q) && t in q.callers && q.callers[t].PopReady?
    ensures var r := Leave(q, t);
      Valid(r) && NoLostPusher(r, 0) && NoLostPopper(r, if q.callers[t].error == EOK then 1 else 0)
  {
    LeaveValid(q, t);
    LeaveCounts(q, t);
    hide Truncate16, DupFree, WokenPoppers, WokenPushers, ListsValid, IndicesValid;
  }

  lemma PushRecheckKeepsAwake<T>(q: Queue<T>, t: ThreadId)
    requires Awake(q) && t in q.callers && q.callers[t].PushReady?
    ensures Awake(Apply(q, PushRecheck(t)))
  {
    hide ListsValid, IndicesValid, PushPass, NoLostPopper, NoLostPusher;
    LeavingPusher(q, t);
    var c := q.callers[t];
    if c.error == EOK {
      PushPassWakes(Leave(q, t), t, c.item, c.wait);
      PushPassValid(Leave(q, t), t, c.item, c.wait);
    }
  }

  lemma PopRecheckKeepsAwake<T>(q: Queue<T>, t: ThreadId)
    requires Awake(q) && t in q.callers && q.callers[t].PopReady?
    ensures Awake(Apply(q, PopRecheck(t)))
  {
    hide ListsValid, IndicesValid, PopPass, NoLostPopper, NoLostPusher;
    LeavingPopper(q, t);
    var c := q.callers[t];
    if c.error == EOK {
      PopPassWakes(Leave(q, t), t, c.wait);
      PopPassValid(Leave(q, t), t, c.wait);
    }
  }

  lemma StepKeepsAwake<T>(q: Queue<T>, e: Event<T>)
    requires Awake(q)
    ensures Awake(Apply(q, e))
  {
    hide Truncate16, DupFree;
    ApplyValid(q, e);
    HeadsSleep(q);
    if Enabled(q, e) {
      match e
      case PushBegin(t, item, wait) => PushPassWakes(q, t, item, wait);
      case PushRecheck(t) => PushRecheckKeepsAwake(q, t);
      case PopBegin(t, wait) => PopPassWakes(q, t, wait);
      case PopRecheck(t) => PopRecheckKeepsAwake(q, t);
      case Timeout(t) => FailedWakeKeepsAwake(q, t, ETIMEOUT);
      case ResetPop => FailedWakeKeepsAwake(q, q.popList[0], ERROR);
      case ResetPush => FailedWakeKeepsAwake(q, q.pushList[0], ERROR);
    }
  }

  /** Over every schedule of any threads with timeouts and resets, no sleeper is forgotten. */
  lemma {:induction false} NoLostWakeups<T>(size: U16, lwm: U16, slots: seq<T>, es: seq<Event<T>>)
    requires |slots| == size
    ensures Valid(Init(size, lwm, slots))
    ensures Awake(Exec(Init(size, lwm, slots), es))
  {
    if es != [] {
      NoLostWakeups(size, lwm, slots, es[..|es| - 1]);
      StepKeepsAwake(Exec(Init(size, lwm, slots), es[..|es| - 1]), es[|es| - 1]);
    }
  }

  /**
   * A popper that sleeps with no resumed popper on its way means that nothing is stored, and then sleeping
   * pushers have a resumed one on its way; unless the queue was pushed a whole turn of the counter ahead.
   */
  lemma AwakeMeansNoDeadlock<T>(q: Queue<T>)
    requires Awake(q) && Stored(q) < MODULUS_16 && q.popList != [] && WokenPoppers(q) == {}
    ensures Stored(q) == 0
    ensures 0 < q.size && q.pushList != [] ==> WokenPushers(q) != {}
  {
    DifferenceBelowStored(q);
    ModUnique(Stored(q), MODULUS_16, 0, Stored(q));
  }

  /**
   * After every schedule that leaves less than a whole turn of the counter stored, pushers and poppers do not
   * sleep together with no resumed thread on its way.
   */
  lemma NoDeadlock<T>(size: U16, lwm: U16, slots: seq<T>, es: seq<Event<T>>)
    requires |slots| == size
    ensures Valid(Init(size, lwm, slots))
    ensures var q := Exec(Init(size, lwm, slots), es);
      Stored(q) < MODULUS_16 && q.popList != [] && WokenPoppers(q) == {} ==>
        && Stored(q) == 0
        && (0 < size && q.pushList != [] ==> WokenPushers(q) != {})
  {
    NoLostWakeups(size, lwm, slots, es);
    ConfigKept(Init(size, lwm, slots), es);
    var q := Exec(Init(size, lwm, slots), es);
    if Stored(q) < MODULUS_16 && q.popList != [] && WokenPoppers(q) == {} {
      AwakeMeansNoDeadlock(q);
    }
  }

  lemma {:induction false} ConfigKept<T>(q: Queue<T>, es: seq<Event<T>>)
    requires Valid(q)
    ensures Exec(q, es).size == q.size && Exec(q, es).lwm == q.lwm
  {
    if es != [] {
      ConfigKept(q, es[..|es| - 1]);
    }
  }

  /** On a queue of no slots a pusher and a popper sleep for ever at once. */
  lemma EmptyQueueDeadlocks(lwm: U16)
    ensures Valid(Init<int>(0, lwm, []))
    ensures var q := Exec(Init<int>(0, lwm, []), [PopBegin(0, Forever), PushBegin(1, 7, Forever)]);
      q.popList == [0] && q.pushList == [1] && WokenPoppers(q) == {} && WokenPushers(q) == {}
  {
    var q0 := Init<int>(0, lwm, []);
    var e0: Event<int>, e1: Event<int> := PopBegin(0, Forever), PushBegin(1, 7, Forever);
    assert [e0, e1][..1] == [e0] && [e0][..0] == [];
    assert Exec(q0, []) == q0;
    assert Exec(q0, [e0]) == SleepOnPop(q0, 0, Forever);
  }
}
