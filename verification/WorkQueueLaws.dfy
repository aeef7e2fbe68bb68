/** What each operation of the work queue does to the list, the worker and the waiting threads. */
module WorkQueueLaws {
  import opened Common
  import opened Kernel
  import opened WorkQueueModel

  /** One work has been taken out of the list, and the others keep their order. */
  ghost predicate TakenOut(before: seq<Work>, after: seq<Work>, work: Work) {
    exists i :: 0 <= i < |before| && before[i] == work && after == before[..i] + before[i + 1..]
  }

  lemma WithoutTakesOut(s: seq<Work>, work: Work)
    requires DupFree(s)
    ensures work in s ==> TakenOut(s, Without(s, work), work) && work !in Without(s, work)
    ensures work !in s ==> Without(s, work) == s
  {
    WithoutIs(s, work);
    var i := WithoutKeepsOrder(s, work);
  }

  /**
   * `dowork` leaves everything as it is for the work that is being run. Any other work is last on the list
   * afterwards, once, with the others before it in their order, whatever the worker is doing.
   */
  lemma DoWorkLaw(q: WorkQueue, t: ThreadId, work: Work)
    requires ListValid(q) && t !in q.resuming && t !in q.cancels
    ensures var r := Apply(q, DoWork(t, work));
      && (q.current == Some(work) ==> r == q)
      && (q.current != Some(work) ==>
        && r.pending != [] && r.pending[|r.pending| - 1] == work
        && (work !in q.pending ==> r.pending == q.pending + [work])
        && (work in q.pending ==> TakenOut(q.pending, r.pending[..|r.pending| - 1], work))
        && r == q.(pending := r.pending, resuming := r.resuming, queued := r.queued)
        && (q.current == None ==> r.resuming == q.resuming + {t})
        && (q.current != None ==> r.resuming == q.resuming)
        && r.queued == q.queued + (if work in q.pending then multiset{} else multiset{work}))
  {
    WithoutTakesOut(q.pending, work);
    var r := Apply(q, DoWork(t, work));
    if q.current != Some(work) {
      assert r.pending[..|r.pending| - 1] == Without(q.pending, work);
    }
  }

  /** Exactly the named work is off the list, and counted as cancelled if it was there. */
  ghost predicate OnlyCancels(q: WorkQueue, r: WorkQueue, work: Work) {
    && r == q.(pending := r.pending, cancelled := r.cancelled)
    && (work in q.pending ==>
         TakenOut(q.pending, r.pending, work) && work !in r.pending && r.cancelled == q.cancelled + multiset{work})
    && (work !in q.pending ==> r == q)
  }

  lemma CancelLaw(q: WorkQueue, work: Work)
    requires ListValid(q)
    ensures var r := Apply(q, CancelWork(work));
      if q.current == Some(work) then r == q else OnlyCancels(q, r, work)
  {
    WithoutTakesOut(q.pending, work);
    hide Without, DupFree, TakenOut;
  }

  /**
   * A `cancel_work_sync` that meets its work running waits for that very run: last in line, unable to return or to
   * do anything else until it is released.
   */
  lemma CancelSyncWaits(q: WorkQueue, t: ThreadId, work: Work)
    requires Waiting(q) && t !in q.resuming && t !in q.cancels && q.current == Some(work)
    ensures var r := Apply(q, CancelSync(t, work));
      && t in r.cancels && r.cancels[t] == Cancel(work, |q.started| - 1) && q.started[|q.started| - 1] == work
      && r.sem.waiters == q.sem.waiters + [t] && r.sem.value == 0
      && r == q.(sem := r.sem, cancels := q.cancels[t := r.cancels[t]])
      && !CanStep(r, ReturnSync(t)) && (forall w :: !CanStep(r, DoWork(t, w)) && !CanStep(r, CancelSync(t, w)))
  {
    hide ListValid;
  }

  /** Otherwise it cancels like `cancel_work` and does not wait. */
  lemma CancelSyncLaw(q: WorkQueue, t: ThreadId, work: Work)
    requires ListValid(q) && t !in q.resuming && t !in q.cancels && q.current != Some(work)
    ensures OnlyCancels(q, Apply(q, CancelSync(t, work)), work)
  {
    WithoutTakesOut(q.pending, work);
    hide Without, DupFree, TakenOut;
  }

  lemma CancelFirst(q: WorkQueue)
    requires ListValid(q) && q.pending != []
    ensures Apply(q, CancelWork(q.pending[0])) ==
      q.(pending := q.pending[1..], cancelled := q.cancelled + multiset{q.pending[0]})
  {
    assert q.current != Some(q.pending[0]);
    hide DupFree;
  }

  lemma CountFirst(counted: multiset<Work>, s: seq<Work>)
    requires s != []
    ensures counted + multiset(s) == (counted + multiset{s[0]}) + multiset(s[1..])
  {
    assert s == [s[0]] + s[1..];
  }

  /** `cancel_all` is the same as cancelling the pending works one by one: the first, then the rest, then none. */
  lemma CancelAllLaw(q: WorkQueue)
    requires ListValid(q)
    ensures q.pending == [] ==> Apply(q, CancelAll) == q
    ensures q.pending != [] ==> Apply(q, CancelAll) == Apply(Apply(q, CancelWork(q.pending[0])), CancelAll)
    ensures Apply(q, CancelAll).pending == []
  {
    if q.pending != [] {
      CancelFirst(q);
      CountFirst(q.cancelled, q.pending);
      hide ListValid, Removed;
    }
  }

  /** The worker runs the first work of the list, and no other. */
  lemma TakeLaw(q: WorkQueue)
    requires ListValid(q) && q.worker == ToTake && q.pending != []
    ensures var r := Apply(q, TakeWork);
      && q.pending == [q.pending[0]] + r.pending
      && r.current == Some(q.pending[0]) && r.started == q.started + [q.pending[0]] && r.finished == q.finished
      && r == q.(pending := r.pending, current := r.current, worker := r.worker, started := r.started)
      && CanStep(r, ReturnFunction)
  {
  }

  /** After the run of a work the worker wakes everybody who waited for it and looks at the list again. */
  lemma RunLaw(q: WorkQueue)
    requires Waiting(q) && q.worker.Running?
    ensures var r := Apply(Apply(Apply(q, ReturnFunction), ClearCurrent), Drain);
      && r.finished == |r.started| && r.started == q.started && r.pending == q.pending
      && r.current == None && r.sem == Semaphore(0, []) && r.cancels == q.cancels && r.worker == AtTop
      && forall t :: t in q.cancels ==> CanStep(r, ReturnSync(t))
  {
  }

  /** Looking, sleeping and being resumed: where the worker goes. */
  lemma WakeLaw(q: WorkQueue, t: ThreadId)
    ensures q.worker == AtTop ==>
      Apply(q, TestEmpty) == q.(worker := if q.pending == [] then GoingToSleep else ToTake)
    ensures q.worker == GoingToSleep ==> Apply(q, Suspend) == q.(worker := Asleep)
    ensures t in q.resuming ==>
      var r := Apply(q, ResumeWorker(t));
      && t !in r.resuming && r == q.(resuming := q.resuming - {t}, worker := r.worker)
      && (q.worker == Asleep ==> CanStep(r, TakeWork)) && (q.worker != Asleep ==> r.worker == q.worker)
  {
  }

  function Cycles(n: nat): seq<Step> {
    if n == 0 then [] else Cycles(n - 1) + [TestEmpty] + [TakeWork] + [ReturnFunction] + [ClearCurrent] + [Drain]
  }

  lemma OneCycle(q: WorkQueue)
    requires ListValid(q) && q.worker == AtTop && q.pending != []
    ensures var r := Apply(Apply(Apply(Apply(Apply(q, TestEmpty), TakeWork), ReturnFunction), ClearCurrent), Drain);
      && r.worker == AtTop && r.pending == q.pending[1..] && r.started == q.started + [q.pending[0]]
      && ListValid(r)
  {
    WakeLaw(q, 0);
    var looked := Apply(q, TestEmpty);
    StepKeepsListValid(q, TestEmpty);
    TakeLaw(looked);
    StepKeepsListValid(looked, TakeWork);
    hide DupFree;
  }

  lemma CycleSteps(q: WorkQueue, es: seq<Step>)
    ensures var r := Exec(q, es);
      Exec(q, es + [TestEmpty] + [TakeWork] + [ReturnFunction] + [ClearCurrent] + [Drain]) ==
      Apply(Apply(Apply(Apply(Apply(r, TestEmpty), TakeWork), ReturnFunction), ClearCurrent), Drain)
  {
    hide Apply, Exec;
    ExecSnoc(q, es, TestEmpty);
    ExecSnoc(q, es + [TestEmpty], TakeWork);
    ExecSnoc(q, es + [TestEmpty] + [TakeWork], ReturnFunction);
    ExecSnoc(q, es + [TestEmpty] + [TakeWork] + [ReturnFunction], ClearCurrent);
    ExecSnoc(q, es + [TestEmpty] + [TakeWork] + [ReturnFunction] + [ClearCurrent], Drain);
  }

  /** Left alone, the worker runs the pending works in the order of the list, each once. */
  lemma {:induction false} RunsInOrder(q: WorkQueue, n: nat)
    requires ListValid(q) && q.worker == AtTop && n <= |q.pending|
    ensures var r := Exec(q, Cycles(n));
      && ListValid(r) && r.worker == AtTop
      && r.started == q.started + q.pending[..n] && r.pending == q.pending[n..]
  {
    hide Apply, ListValid;
    if n > 0 {
      RunsInOrder(q, n - 1);
      OneCycle(Exec(q, Cycles(n - 1)));
      CycleSteps(q, Cycles(n - 1));
      assert q.pending[..n] == q.pending[..n - 1] + [q.pending[n - 1]];
    } else {
      ExecNil(q);
    }
  }
}
