/** The work queue in the form of rt_ext/workqueue.c: list, current work and semaphore updated in place. */
module WorkQueues {
  import opened Common
  import opened Kernel
  import opened WorkQueueModel

  /** The kernel semaphore, as far as the work queue uses it. */
  class SemaphoreObject {
    var value: nat
    var waiters: seq<ThreadId>

    ghost function View(): Semaphore
      reads this
    {
      Semaphore(value, waiters)
    }

    constructor ()
      ensures View() == Semaphore(0, [])
    {
      value, waiters := 0, [];
    }

    /** `rt_sem_trytake`. */
    method TryTake() returns (result: Error)
      modifies this`value
      ensures result == if old(value) > 0 then EOK else ETIMEOUT
      ensures value == if old(value) > 0 then old(value) - 1 else 0
    {
      if value > 0 {
        value := value - 1;
        return EOK;
      }
      return ETIMEOUT;
    }

    /** `rt_sem_take` without a time limit. */
    method Take(t: ThreadId) returns (asleep: bool)
      modifies this
      ensures asleep == (old(value) == 0)
      ensures View() ==
        if asleep then Semaphore(0, old(waiters) + [t]) else Semaphore(old(value) - 1, old(waiters))
    {
      if value > 0 {
        value := value - 1;
        return false;
      }
      waiters := waiters + [t];
      return true;
    }

    /** `rt_sem_release`: the first waiter is resumed, or the value grows. */
    method Release()
      modifies this
      ensures View() ==
        if old(waiters) == [] then Semaphore(old(value) + 1, []) else Semaphore(old(value), old(waiters)[1..])
    {
      if waiters != [] {
        waiters := waiters[1..];
      } else {
        value := value + 1;
      }
    }

    /** The completion loop of the worker. */
    method CompleteWaiters() returns (result: Error)
      modifies this
      ensures View() == Drained(old(View()))
      ensures result == EOK
    {
      result := TryTake();
      while result == ETIMEOUT
        invariant result == EOK || result == ETIMEOUT
        invariant result == ETIMEOUT ==> value == 0 && old(value) == 0
        invariant result == EOK ==> View() == Drained(old(View()))
        decreases result == ETIMEOUT, |waiters|
      {
        Release();
        result := TryTake();
      }
    }
  }

  class WorkQueueObject {
    var pending: seq<Work>
    var current: Option<Work>
    const sem: SemaphoreObject
    // where the worker thread and the callers stand
    var worker: Worker
    var resuming: set<ThreadId>
    ghost var cancels: map<ThreadId, Cancel>
    ghost var started: seq<Work>
    ghost var finished: nat
    ghost var queued: multiset<Work>
    ghost var cancelled: multiset<Work>

    ghost function View(): WorkQueue
      reads this, sem
    {
      WorkQueue(pending, current, sem.View(), worker, resuming, cancels, started, finished, queued, cancelled)
    }

    /** `rt_workqueue_create`. */
    constructor ()
      ensures fresh(sem) && View() == INIT
    {
      pending, current, worker := [], None, AtTop;
      resuming, cancels := {}, map[];
      started, finished, queued, cancelled := [], 0, multiset{}, multiset{};
      sem := new SemaphoreObject();
    }

    /** The worker looks for work. */
    method Look()
      requires CanStep(View(), TestEmpty)
      modifies this
      ensures View() == Apply(old(View()), TestEmpty)
    {
      if pending == [] {
        worker := GoingToSleep;
      } else {
        worker := ToTake;
      }
    }

    /** The worker suspends itself. */
    method Sleep()
      requires CanStep(View(), Suspend)
      modifies this
      ensures View() == Apply(old(View()), Suspend)
    {
      worker := Asleep;
    }

    /** The worker takes the first work. */
    method TakeFirst()
      requires CanStep(View(), TakeWork)
      modifies this
      ensures View() == Apply(old(View()), TakeWork)
    {
      if pending == [] {
        // the list head would be taken for a work
        worker := Broken;
        return;
      }
      var work := pending[0];
      pending := pending[1..];
      current := Some(work);
      worker := Running(work);
      started := started + [work];
    }

    /** The function of the current work returns. */
    method FunctionReturns()
      requires CanStep(View(), ReturnFunction)
      modifies this
      ensures View() == Apply(old(View()), ReturnFunction)
    {
      worker := FunctionReturned(worker.work);
      finished := finished + 1;
    }

    /** The worker clears the current work. */
    method Clear()
      requires CanStep(View(), ClearCurrent)
      modifies this
      ensures View() == Apply(old(View()), ClearCurrent)
    {
      current := None;
      worker := ToDrain;
    }

    /** The worker releases everybody who waits for the work. */
    method Acknowledge()
      requires CanStep(View(), Drain)
      modifies this, sem
      ensures View() == Apply(old(View()), Drain)
    {
      var _ := sem.CompleteWaiters();
      worker := AtTop;
    }

    /** `rt_workqueue_dowork`; `resume` tells the caller to resume the worker. */
    method Submit(t: ThreadId, work: Work) returns (busy: bool, resume: bool)
      requires CanStep(View(), DoWork(t, work))
      modifies this
      ensures View() == Apply(old(View()), DoWork(t, work))
      ensures busy == (old(current) == Some(work))
      ensures resume == (!busy && old(current) == None)
    {
      if current == Some(work) {
        return true, false;
      }
      if work !in pending {
        queued := queued + multiset{work};
      }
      pending := Without(pending, work);
      pending := pending + [work];
      if current == None {
        resuming := resuming + {t};
        return false, true;
      }
      return false, false;
    }

    /** The second half of `rt_workqueue_dowork`: resuming a worker that is not asleep does nothing. */
    method Resume(t: ThreadId)
      requires CanStep(View(), ResumeWorker(t))
      modifies this
      ensures View() == Apply(old(View()), ResumeWorker(t))
    {
      resuming := resuming - {t};
      if worker.Asleep? {
        worker := ToTake;
      }
    }

    /** `rt_list_remove` of a work that may be on the list. */
    method Remove(work: Work)
      modifies this
      ensures View() == Removed(old(View()), work)
    {
      if work in pending {
        cancelled := cancelled + multiset{work};
      } else {
        WithoutAbsent(pending, work);
      }
      pending := Without(pending, work);
    }

    /** `rt_workqueue_cancel_work`. */
    method Cancel(work: Work) returns (busy: bool)
      modifies this
      ensures View() == Apply(old(View()), CancelWork(work))
      ensures busy == (old(current) == Some(work))
    {
      if current == Some(work) {
        return true;
      }
      Remove(work);
      return false;
    }

    /** `rt_workqueue_cancel_work_sync` up to the place where the thread sleeps or returns. */
    method BeginCancelSync(t: ThreadId, work: Work) returns (asleep: bool)
      requires CanStep(View(), CancelSync(t, work))
      modifies this, sem
      ensures View() == Apply(old(View()), CancelSync(t, work))
      ensures asleep == (old(current) == Some(work) && old(sem.value) == 0)
    {
      if current == Some(work) {
        asleep := sem.Take(t);
        if asleep {
          cancels := cancels[t := WorkQueueModel.Cancel(work, |started| - 1)];
        }
        return;
      }
      Remove(work);
      return false;
    }

    /** A thread that slept in `rt_workqueue_cancel_work_sync` runs again and returns. */
    method EndCancelSync(t: ThreadId)
      requires CanStep(View(), ReturnSync(t))
      modifies this
      ensures View() == Apply(old(View()), ReturnSync(t))
    {
      cancels := cancels - {t};
    }

    /** `rt_workqueue_cancel_all_work`. */
    method CancelEverything()
      modifies this
      ensures View() == Apply(old(View()), CancelAll)
    {
      while pending != []
        invariant View() == old(View()).(pending := pending, cancelled := cancelled)
        invariant cancelled + multiset(pending) == old(cancelled) + multiset(old(pending))
        decreases |pending|
      {
        assert pending == [pending[0]] + pending[1..];
        Remove(pending[0]);
      }
    }
  }
}
