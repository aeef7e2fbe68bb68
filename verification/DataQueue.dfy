/** The data queue in the form of rt_ext/dataqueue.c: indices, slots and wait lists updated in place. */
module DataQueues {
  import opened Common
  import opened Kernel
  import opened DataQueueModel
  import opened DataQueueFifo

  /** How a thread leaves an interrupts-off region. */
  datatype Outcome = Returned(error: Error) | Suspended

  class DataQueue<T(0)> {
    const size: U16
    const lwm: U16
    var putIndex: U16
    var getIndex: U16
    const slots: array<T>
    var pushList: seq<ThreadId>
    var popList: seq<ThreadId>
    // the control blocks of the threads inside push and pop
    var callers: map<ThreadId, Caller<T>>
    ghost var pushed: seq<T>
    ghost var popped: seq<T>

    ghost function View(): Queue<T>
      reads this, slots
    {
      Queue(size, lwm, putIndex, getIndex, slots[..], pushList, popList, callers, pushed, popped)
    }

    ghost predicate Valid()
      reads this, slots
    {
      DataQueueModel.Valid(View())
    }

    constructor (size: U16, lwm: U16)
      ensures Valid() && fresh(slots)
      ensures this.size == size && this.lwm == lwm
      ensures |View().slots| == size && View() == Init(size, lwm, View().slots)
    {
      this.size, this.lwm := size, lwm;
      putIndex, getIndex := 0, 0;
      pushList, popList, callers := [], [], map[];
      pushed, popped := [], [];
      slots := new T[size];
    }

    /** `rt_thread_resume` on a thread of the push list. */
    method ResumePush(t: ThreadId, error: Error)
      requires Valid() && IsPushAsleep(View(), t)
      modifies this
      ensures Valid() && View() == WakePush(old(View()), t, error)
    {
      WakePushValid(View(), t, error);
      pushList := Without(pushList, t);
      callers := callers[t := PushReady(callers[t].item, callers[t].wait, error)];
    }

    /** `rt_thread_resume` on a thread of the pop list. */
    method ResumePop(t: ThreadId, error: Error)
      requires Valid() && IsPopAsleep(View(), t)
      modifies this
      ensures Valid() && View() == WakePop(old(View()), t, error)
    {
      WakePopValid(View(), t, error);
      popList := Without(popList, t);
      callers := callers[t := PopReady(callers[t].wait, error)];
    }

    /** The loop body of push and what follows the loop, up to the end of the region. */
    method TryPush(t: ThreadId, item: T, wait: Wait) returns (r: Outcome)
      requires Valid() && t !in callers
      modifies this, slots
      ensures Valid() && View() == PushPass(old(View()), t, item, wait)
      ensures r ==
        if !old(Full(View())) then Returned(EOK)
        else if wait == NoWait then Returned(ETIMEOUT) else Suspended
    {
      PushPassValid(View(), t, item, wait);
      if putIndex - getIndex == size {
        if wait == NoWait {
          return Returned(ETIMEOUT);
        }
        pushList := pushList + [t];
        callers := callers[t := PushAsleep(item, wait)];
        return Suspended;
      }
      StoreValid(View(), item);
      HeadsSleep(View());
      slots[putIndex % size] := item;
      putIndex := Truncate16(putIndex + 1);
      pushed := pushed + [item];
      if popList != [] {
        ResumePop(popList[0], EOK);
      }
      return Returned(EOK);
    }

    /** The loop body of pop and what follows the loop, up to the end of the region. */
    method TryPop(t: ThreadId, wait: Wait) returns (r: Outcome, item: Option<T>)
      requires Valid() && (wait != NoWait ==> t !in callers)
      modifies this
      ensures Valid() && View() == PopPass(old(View()), t, wait)
      ensures r ==
        if !old(Empty(View())) then Returned(EOK)
        else if wait == NoWait then Returned(ETIMEOUT) else Suspended
      ensures r == Returned(EOK) <==> item.Some?
      ensures item.Some? ==> popped == old(popped) + [item.value]
      ensures item.None? ==> popped == old(popped)
    {
      PopPassValid(View(), t, wait);
      if getIndex == putIndex {
        if wait == NoWait {
          return Returned(ETIMEOUT), None;
        }
        popList := popList + [t];
        callers := callers[t := PopAsleep(wait)];
        return Suspended, None;
      }
      TakeValid(View());
      HeadsSleep(View());
      item := Some(slots[getIndex % size]);
      popped := popped + [item.value];
      getIndex := Truncate16(getIndex + 1);
      if putIndex - getIndex <= lwm {
        if pushList != [] {
          ResumePush(pushList[0], EOK);
        }
      }
      return Returned(EOK), item;
    }

    /** A pusher runs again after it was resumed. */
    method ContinuePush(t: ThreadId) returns (r: Outcome)
      requires Valid() && t in callers && callers[t].PushReady?
      modifies this, slots
      ensures Valid() && View() == Apply(old(View()), PushRecheck(t))
      ensures r ==
        var c := old(callers)[t];
        if c.error != EOK then Returned(c.error)
        else if !old(Full(View())) then Returned(EOK)
        else if c.wait == NoWait then Returned(ETIMEOUT) else Suspended
    {
      var c := callers[t];
      LeaveValid(View(), t);
      callers := callers - {t};
      if c.error != EOK {
        return Returned(c.error);
      }
      r := TryPush(t, c.item, c.wait);
    }

    /** A popper runs again after it was resumed. */
    method ContinuePop(t: ThreadId) returns (r: Outcome, item: Option<T>)
      requires Valid() && t in callers && callers[t].PopReady?
      modifies this
      ensures Valid() && View() == Apply(old(View()), PopRecheck(t))
      ensures r ==
        var c := old(callers)[t];
        if c.error != EOK then Returned(c.error)
        else if !old(Empty(View())) then Returned(EOK)
        else if c.wait == NoWait then Returned(ETIMEOUT) else Suspended
      ensures item.Some? ==> popped == old(popped) + [item.value]
      ensures item.None? ==> popped == old(popped)
    {
      var c := callers[t];
      LeaveValid(View(), t);
      callers := callers - {t};
      if c.error != EOK {
        return Returned(c.error), None;
      }
      r, item := TryPop(t, c.wait);
    }

    /** `rt_data_queue_peak`. */
    method Peak() returns (item: Option<T>)
      requires Valid()
      ensures item == Peek(View())
    {
      if getIndex == putIndex {
        return None;
      }
      item := Some(slots[getIndex % size]);
    }

    /** `rt_data_queue_reset`: every sleeper is woken with an error; items and indices stay. */
    method Reset()
      requires Valid()
      modifies this
      ensures Valid() && pushList == [] && popList == []
      ensures View() == WholeReset(old(View()))
    {
      while popList != []
        invariant Valid() && pushList == old(pushList)
        invariant callers.Keys == old(callers).Keys
        invariant forall t :: t in callers ==>
          if IsPopAsleep(View(), t) then callers[t] == old(callers)[t] else callers[t] == FailPopper(old(callers)[t])
        invariant View() == old(View()).(popList := popList, callers := callers)
        decreases |popList|
      {
        HeadsSleep(View());
        ResumePop(popList[0], ERROR);
      }
      ghost var mid := callers;
      assert forall t :: t in callers ==> !IsPopAsleep(View(), t);
      while pushList != []
        invariant Valid() && popList == []
        invariant callers.Keys == old(callers).Keys
        invariant forall t :: t in callers ==>
          if IsPushAsleep(View(), t) then callers[t] == mid[t] else callers[t] == Fail(old(callers)[t])
        invariant View() == old(View()).(pushList := pushList, popList := [], callers := callers)
        decreases |pushList|
      {
        HeadsSleep(View());
        ResumePush(pushList[0], ERROR);
      }
      assert forall t :: t in callers ==> !IsPushAsleep(View(), t);
    }
  }
}
