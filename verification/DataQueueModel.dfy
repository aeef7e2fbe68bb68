/** The data queue of rt_ext/dataqueue.c as a transition system: one step per interrupts-off region. */
module DataQueueModel {
  import opened Common
  import opened Kernel

  /** What a thread inside `push` or `pop` is doing, and its `thread->error` once it was resumed. */
  datatype Caller<+T> =
    | PushAsleep(item: T, wait: Wait)
    | PushReady(item: T, wait: Wait, error: Error)
    | PopAsleep(wait: Wait)
    | PopReady(wait: Wait, error: Error)

  /**
   * The queue and the threads inside it. `pushed` and `popped` are history: every item
   * ever stored and every item ever taken out.
   */
  datatype Queue<T> = Queue(
    size: U16, lwm: U16,
    putIndex: U16, getIndex: U16, slots: seq<T>,
    pushList: seq<ThreadId>, popList: seq<ThreadId>, callers: map<ThreadId, Caller<T>>,
    pushed: seq<T>, popped: seq<T>)

  datatype Event<+T> =
    | PushBegin(t: ThreadId, item: T, wait: Wait)
    | PushRecheck(t: ThreadId)
    | PopBegin(t: ThreadId, wait: Wait)
    | PopRecheck(t: ThreadId)
    | Timeout(t: ThreadId)
    | ResetPop
    | ResetPush

  function Init<T>(size: U16, lwm: U16, slots: seq<T>): Queue<T> {
    Queue(size, lwm, 0, 0, slots, [], [], map[], [], [])
  }

  /** The full test, with the subtraction done in `int`. */
  predicate Full<T>(q: Queue<T>) {
    q.putIndex - q.getIndex == q.size
  }

  predicate Empty<T>(q: Queue<T>) {
    q.getIndex == q.putIndex
  }

  predicate IsPushAsleep<T>(q: Queue<T>, t: ThreadId) {
    t in q.callers && q.callers[t].PushAsleep?
  }

  predicate IsPopAsleep<T>(q: Queue<T>, t: ThreadId) {
    t in q.callers && q.callers[t].PopAsleep?
  }

  /** The wait lists hold each sleeping thread exactly once. */
  ghost predicate ListsValid<T>(q: Queue<T>) {
    && DupFree(q.pushList) && DupFree(q.popList)
    && (forall t :: t in q.pushList <==> IsPushAsleep(q, t))
    && (forall t :: t in q.popList <==> IsPopAsleep(q, t))
  }

  /** The indices are the truncated totals, and nothing is taken before it is stored. */
  ghost predicate IndicesValid<T>(q: Queue<T>) {
    && |q.slots| == q.size
    && (q.size == 0 ==> q.pushed == [])
    && |q.popped| <= |q.pushed|
    && q.putIndex == Truncate16(|q.pushed|)
    && q.getIndex == Truncate16(|q.popped|)
  }

  ghost predicate Valid<T>(q: Queue<T>) {
    ListsValid(q) && IndicesValid(q)
  }

  lemma HeadsSleep<T>(q: Queue<T>)
    requires ListsValid(q)
    ensures q.pushList != [] ==> IsPushAsleep(q, q.pushList[0])
    ensures q.popList != [] ==> IsPopAsleep(q, q.popList[0])
  {
    assert q.pushList != [] ==> q.pushList[0] in q.pushList;
    assert q.popList != [] ==> q.popList[0] in q.popList;
  }

  // The pieces a region is made of

  function Leave<T>(q: Queue<T>, t: ThreadId): (r: Queue<T>) {
    q.(callers := q.callers - {t})
  }

  function SleepOnPush<T>(q: Queue<T>, t: ThreadId, item: T, wait: Wait): Queue<T> {
    q.(pushList := q.pushList + [t], callers := q.callers[t := PushAsleep(item, wait)])
  }

  function SleepOnPop<T>(q: Queue<T>, t: ThreadId, wait: Wait): Queue<T> {
    q.(popList := q.popList + [t], callers := q.callers[t := PopAsleep(wait)])
  }

  function Store<T>(q: Queue<T>, item: T): Queue<T>
    requires 0 < q.size == |q.slots|
  {
    q.(slots := q.slots[q.putIndex % q.size := item],
       putIndex := Truncate16(q.putIndex + 1),
       pushed := q.pushed + [item])
  }

  function Take<T>(q: Queue<T>): Queue<T>
    requires 0 < q.size == |q.slots|
  {
    q.(getIndex := Truncate16(q.getIndex + 1),
       popped := q.popped + [q.slots[q.getIndex % q.size]])
  }

  function WakePush<T>(q: Queue<T>, t: ThreadId, error: Error): Queue<T>
    requires IsPushAsleep(q, t)
  {
    q.(pushList := Without(q.pushList, t),
       callers := q.callers[t := PushReady(q.callers[t].item, q.callers[t].wait, error)])
  }

  function WakePop<T>(q: Queue<T>, t: ThreadId, error: Error): Queue<T>
    requires IsPopAsleep(q, t)
  {
    q.(popList := Without(q.popList, t),
       callers := q.callers[t := PopReady(q.callers[t].wait, error)])
  }

  // One pass through the loop of push and of pop

  function PushPass<T>(q: Queue<T>, t: ThreadId, item: T, wait: Wait): Queue<T>
    requires Valid(q)
  {
    if Full(q) then
      if wait.NoWait? then q else SleepOnPush(q, t, item, wait)
    else
      HeadsSleep(q);
      var stored := Store(q, item);
      if stored.popList == [] then stored else WakePop(stored, stored.popList[0], EOK)
  }

  function PopPass<T>(q: Queue<T>, t: ThreadId, wait: Wait): Queue<T>
    requires Valid(q)
  {
    if Empty(q) then
      if wait.NoWait? then q else SleepOnPop(q, t, wait)
    else
      HeadsSleep(q);
      var taken := Take(q);
      if taken.putIndex - taken.getIndex <= q.lwm && taken.pushList != []
      then WakePush(taken, taken.pushList[0], EOK) else taken
  }

  predicate Enabled<T>(q: Queue<T>, e: Event<T>) {
    match e
    case PushBegin(t, _, _) => t !in q.callers
    case PushRecheck(t) => t in q.callers && q.callers[t].PushReady?
    case PopBegin(t, _) => t !in q.callers
    case PopRecheck(t) => t in q.callers && q.callers[t].PopReady?
    case Timeout(t) =>
      && t in q.callers && (q.callers[t].PushAsleep? || q.callers[t].PopAsleep?)
      && q.callers[t].wait.Timed?
    case ResetPop => q.popList != []
    case ResetPush => q.pushList != []
  }

  function Apply<T>(q: Queue<T>, e: Event<T>): (r: Queue<T>)
    requires Valid(q)
  {
    if !Enabled(q, e) then q else
    match e
    case PushBegin(t, item, wait) => PushPass(q, t, item, wait)
    case PushRecheck(t) =>
      var c := q.callers[t];
      var left := Leave(q, t);
      if c.error != EOK then left else LeaveValid(q, t); PushPass(left, t, c.item, c.wait)
    case PopBegin(t, wait) => PopPass(q, t, wait)
    case PopRecheck(t) =>
      var c := q.callers[t];
      var left := Leave(q, t);
      if c.error != EOK then left else LeaveValid(q, t); PopPass(left, t, c.wait)
    case Timeout(t) =>
      if q.callers[t].PushAsleep? then WakePush(q, t, ETIMEOUT) else WakePop(q, t, ETIMEOUT)
    case ResetPop => HeadsSleep(q); WakePop(q, q.popList[0], ERROR)
    case ResetPush => HeadsSleep(q); WakePush(q, q.pushList[0], ERROR)
  }

  // Every step keeps the queue valid

  lemma LeaveValid<T>(q: Queue<T>, t: ThreadId)
    requires Valid(q) && !IsPushAsleep(q, t) && !IsPopAsleep(q, t)
    ensures Valid(Leave(q, t))
  {
    var r := Leave(q, t);
    assert forall u :: IsPushAsleep(r, u) <==> IsPushAsleep(q, u);
    assert forall u :: IsPopAsleep(r, u) <==> IsPopAsleep(q, u);
  }

  lemma SleepOnPushValid<T>(q: Queue<T>, t: ThreadId, item: T, wait: Wait)
    requires Valid(q) && t !in q.callers
    ensures Valid(SleepOnPush(q, t, item, wait))
  {
    var r := SleepOnPush(q, t, item, wait);
    assert !IsPushAsleep(q, t) && t !in q.pushList;
    assert forall u :: IsPushAsleep(r, u) <==> u == t || IsPushAsleep(q, u);
    assert forall u :: IsPopAsleep(r, u) <==> IsPopAsleep(q, u);
  }

  lemma SleepOnPopValid<T>(q: Queue<T>, t: ThreadId, wait: Wait)
    requires Valid(q) && t !in q.callers
    ensures Valid(SleepOnPop(q, t, wait))
  {
    var r := SleepOnPop(q, t, wait);
    assert !IsPopAsleep(q, t) && t !in q.popList;
    assert forall u :: IsPopAsleep(r, u) <==> u == t || IsPopAsleep(q, u);
    assert forall u :: IsPushAsleep(r, u) <==> IsPushAsleep(q, u);
  }

  lemma WakePushValid<T>(q: Queue<T>, t: ThreadId, error: Error)
    requires ListsValid(q) && IsPushAsleep(q, t)
    ensures ListsValid(WakePush(q, t, error))
  {
    WithoutIs(q.pushList, t);
    var r := WakePush(q, t, error);
    assert forall u :: IsPushAsleep(r, u) <==> u != t && IsPushAsleep(q, u);
    assert forall u :: IsPopAsleep(r, u) <==> IsPopAsleep(q, u);
  }

  lemma WakePopValid<T>(q: Queue<T>, t: ThreadId, error: Error)
    requires ListsValid(q) && IsPopAsleep(q, t)
    ensures ListsValid(WakePop(q, t, error))
  {
    WithoutIs(q.popList, t);
    var r := WakePop(q, t, error);
    assert forall u :: IsPopAsleep(r, u) <==> u != t && IsPopAsleep(q, u);
    assert forall u :: IsPushAsleep(r, u) <==> IsPushAsleep(q, u);
  }

  lemma StoreValid<T>(q: Queue<T>, item: T)
    requires Valid(q) && !Full(q)
    ensures Valid(Store(q, item))
  {
    var r := Store(q, item);
    ModAdvance(|q.pushed|, MODULUS_16, 1);
    ModAdvance(q.putIndex, MODULUS_16, 1);
    assert forall u :: IsPushAsleep(r, u) <==> IsPushAsleep(q, u);
    assert forall u :: IsPopAsleep(r, u) <==> IsPopAsleep(q, u);
  }

  lemma TakeValid<T>(q: Queue<T>)
    requires Valid(q) && !Empty(q)
    ensures Valid(Take(q))
  {
    var r := Take(q);
    ModAdvance(|q.popped|, MODULUS_16, 1);
    ModAdvance(q.getIndex, MODULUS_16, 1);
    assert forall u :: IsPushAsleep(r, u) <==> IsPushAsleep(q, u);
    assert forall u :: IsPopAsleep(r, u) <==> IsPopAsleep(q, u);
  }

  lemma PopPassValid<T>(q: Queue<T>, t: ThreadId, wait: Wait)
    requires Valid(q) && (wait != NoWait ==> t !in q.callers)
    ensures Valid(PopPass(q, t, wait))
  {
    if Empty(q) {
      if wait != NoWait {
        SleepOnPopValid(q, t, wait);
      }
    } else {
      var taken := Take(q);
      TakeValid(q);
      if q.pushList != [] {
        HeadsSleep(q);
        WakePushValid(taken, q.pushList[0], EOK);
      }
    }
  }

  lemma PushPassValid<T>(q: Queue<T>, t: ThreadId, item: T, wait: Wait)
    requires Valid(q) && t !in q.callers
    ensures Valid(PushPass(q, t, item, wait))
  {
    if Full(q) {
      SleepOnPushValid(q, t, item, wait);
    } else {
      var stored := Store(q, item);
      StoreValid(q, item);
      if q.popList != [] {
        HeadsSleep(q);
        WakePopValid(stored, q.popList[0], EOK);
      }
    }
  }

  lemma ApplyValid<T>(q: Queue<T>, e: Event<T>)
    requires Valid(q)
    ensures Valid(Apply(q, e))
  {
    if Enabled(q, e) {
      match e
      case PushBegin(t, item, wait) => PushPassValid(q, t, item, wait);
      case PushRecheck(t) =>
        var c := q.callers[t];
        LeaveValid(q, t);
        PushPassValid(Leave(q, t), t, c.item, c.wait);
      case PopBegin(t, wait) => PopPassValid(q, t, wait);
      case PopRecheck(t) =>
        LeaveValid(q, t);
        PopPassValid(Leave(q, t), t, q.callers[t].wait);
      case Timeout(t) =>
        if q.callers[t].PushAsleep? {
          WakePushValid(q, t, ETIMEOUT);
        } else {
          WakePopValid(q, t, ETIMEOUT);
        }
      case ResetPop =>
        HeadsSleep(q);
        WakePopValid(q, q.popList[0], ERROR);
      case ResetPush =>
        HeadsSleep(q);
        WakePushValid(q, q.pushList[0], ERROR);
    }
  }

  /** The state after a schedule: any interleaving of any threads, timeouts and resets. */
  function Exec<T>(q: Queue<T>, es: seq<Event<T>>): (r: Queue<T>)
    requires Valid(q)
    ensures Valid(r)
  {
    if es == [] then q else
    var before := Exec(q, es[..|es| - 1]);
    var e := es[|es| - 1];
    ApplyValid(before, e);
    Apply(before, e)
  }

  // A whole reset

  /** What a reset does to one thread. */
  function Fail<T>(c: Caller<T>): Caller<T> {
    match c
    case PushAsleep(item, wait) => PushReady(item, wait, ERROR)
    case PopAsleep(wait) => PopReady(wait, ERROR)
    case _ => c
  }

  function FailPopper<T>(c: Caller<T>): Caller<T> {
    if c.PopAsleep? then Fail(c) else c
  }

  function AllFailed<T>(callers: map<ThreadId, Caller<T>>): map<ThreadId, Caller<T>> {
    map t | t in callers :: Fail(callers[t])
  }

  /** The queue after `rt_data_queue_reset`. */
  function WholeReset<T>(q: Queue<T>): Queue<T> {
    q.(pushList := [], popList := [], callers := AllFailed(q.callers))
  }
}
