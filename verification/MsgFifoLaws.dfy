/** What each step of `msg_push` and `msg_pop` moves between the queues and the hands of the threads. */
module MsgFifoLaws {
  import opened Common
  import opened Kernel
  import opened DataQueueModel
  import Q = DataQueueModel
  import opened DataQueueFifo
  import opened DataQueueLaws
  import opened MsgFifoModel

  /** A push first asks for a free unit, and gets the one that has been free longest. */
  lemma TakeFreeLaw(m: Pool, t: ThreadId, n: U16)
    requires Conserved(m, n) && t !in m.phases && t !in m.ready.callers
    ensures var r := PoolApply(m, TakeFree(t));
      && r.ready == m.ready && r.free.callers == map[]
      && if Contents(m.free) == [] then r.free == m.free && r.phases == m.phases[t := WantsReady]
         else Contents(r.free) == Contents(m.free)[1..] && r.phases == m.phases[t := Filling(Contents(m.free)[0])]
  {
    PopOutcome(m.free, t, NoWait);
    PopLaw(m.free, t, NoWait);
    PopCallers(m.free, t, NoWait);
    hide PopPass, SlotsLive, ListsValid, IndicesValid, Partition, LowWater;
  }

  /** If there was none it takes the oldest ready one, or gives up. */
  lemma TakeReadyLaw(m: Pool, t: ThreadId, n: U16)
    requires Conserved(m, n) && t in m.phases && m.phases[t] == WantsReady
    ensures var r := PoolApply(m, TakeReady(t));
      && r.free == m.free && r.ready.popList == m.ready.popList && r.ready.callers == m.ready.callers
      && if Contents(m.ready) == [] then r.ready == m.ready && r.phases == m.phases - {t}
         else Contents(r.ready) == Contents(m.ready)[1..] && r.phases == m.phases[t := Filling(Contents(m.ready)[0])]
  {
    assert t in m.phases.Keys;
    PopOutcome(m.ready, t, NoWait);
    PopCallers(m.ready, t, NoWait);
    WaitingPoppers(m.ready, t, 0, NoWait);
    PopLaw(m.ready, t, NoWait);
    hide PopPass, SlotsLive, ListsValid, IndicesValid, Partition, LowWater;
  }

  /** The commit of a push puts its unit last and resumes the thread that has waited longest. */
  lemma CommitReadyLaw(m: Pool, t: ThreadId, n: U16)
    requires Conserved(m, n) && t in m.phases && m.phases[t].Filling?
    ensures var r := PoolApply(m, CommitReady(t));
      && r.free == m.free && r.phases == m.phases - {t}
      && r.ready.pushed == m.ready.pushed + [m.phases[t].u] && r.ready.popped == m.ready.popped
      && ResumesFirstPopper(m.ready, r.ready)
  {
    assert t in m.phases.Keys;
    HolderLeavesRoom(m, t, n);
    PushLaw(m.ready, t, m.phases[t].u, NoWait);
    hide PushPass, SlotsLive, ListsValid, IndicesValid, Partition;
  }

  /** The commit of a pop puts its unit last among the free ones. */
  lemma CommitFreeLaw(m: Pool, t: ThreadId, n: U16)
    requires Conserved(m, n) && t in m.phases && m.phases[t].Draining?
    ensures var r := PoolApply(m, CommitFree(t));
      && r.ready == m.ready && r.phases == m.phases - {t} && r.free.callers == map[]
      && r.free.pushed == m.free.pushed + [m.phases[t].u] && r.free.popped == m.free.popped
  {
    HolderLeavesRoom(m, t, n);
    PushLaw(m.free, t, m.phases[t].u, NoWait);
    hide PushPass, SlotsLive, ListsValid, IndicesValid, Partition;
    assert m.free.callers == map[];
  }

  lemma HolderLeavesRoom(m: Pool, t: ThreadId, n: U16)
    requires Conserved(m, n) && Holds(m.phases, t)
    ensures |Contents(m.free)| < n && |Contents(m.ready)| < n
  {
    PartitionCount(Contents(m.free), Contents(m.ready), m.phases, n);
    assert m.phases[t].u in Held(m.phases);
  }

  /** A pop takes the oldest ready unit, or fails, or waits behind the others. */
  lemma StartPopLaw(m: Pool, t: ThreadId, wait: Wait, n: U16)
    requires Conserved(m, n) && t !in m.phases && t !in m.ready.callers
    ensures var r := PoolApply(m, StartPop(t, wait));
      && r.free == m.free
      && if Contents(m.ready) == [] then
           && r.phases == m.phases
           && if wait.NoWait? then r.ready == m.ready else SleepsInPop(m.ready, r.ready, t, wait)
         else
           && Contents(r.ready) == Contents(m.ready)[1..] && r.ready.callers == m.ready.callers
           && r.phases == m.phases[t := Draining(Contents(m.ready)[0])]
  {
    PopOutcome(m.ready, t, wait);
    PopCallers(m.ready, t, wait);
    PopLaw(m.ready, t, wait);
    hide PopPass, SlotsLive, ListsValid, IndicesValid, Partition, LowWater;
  }

  /** A resumed pop leaves with its error, or tests again as a new one with its own timeout would. */
  lemma ResumePopLaw(m: Pool, t: ThreadId, n: U16)
    requires Conserved(m, n) && t in m.ready.callers && m.ready.callers[t].PopReady?
    ensures Conserved(m.(ready := Leave(m.ready, t)), n)
    ensures var c, r, left := m.ready.callers[t], PoolApply(m, ResumePop(t)), m.(ready := Leave(m.ready, t));
      && (c.error != EOK ==> Left(m.ready, r.ready, t) && r.free == m.free && r.phases == m.phases)
      && (c.error == EOK ==> r == PoolApply(left, StartPop(t, c.wait)))
  {
    assert t in m.ready.callers.Keys;
    LeaveConserves(m, t, n);
    RecheckLaw(m.ready, t);
    FailedCallLeaves(m.ready, t);
    hide PopPass, SlotsLive, ListsValid, IndicesValid, Partition;
  }

  /** A timeout of a waiting pop wakes it with the timeout error and moves no unit. */
  lemma PopTimeoutLaw(m: Pool, t: ThreadId, n: U16)
    requires Conserved(m, n) && IsPopAsleep(m.ready, t) && m.ready.callers[t].wait == Timed
    ensures var r := PoolApply(m, PopTimeout(t));
      && r == m.(ready := r.ready) && AwakeWith(m.ready, r.ready, t, ETIMEOUT)
      && r.ready == m.ready.(callers := r.ready.callers, popList := r.ready.popList)
      && OffList(m.ready.popList, r.ready.popList, t)
  {
    TimeoutLaw(m.ready, t);
    hide SlotsLive, IndicesValid, Partition;
  }
}
