/** The work queue of rt_ext/workqueue.c as a transition system: one step per region that nothing can interrupt. */
module WorkQueueModel {
  import opened Common
  import opened Kernel

  type Work = nat

  /** Where the worker thread stands in its endless loop; `Broken` is past a take from an empty list. */
  datatype Worker =
    AtTop | GoingToSleep | Asleep | ToTake | Running(work: Work) | FunctionReturned(work: Work) | ToDrain | Broken

  datatype Semaphore = Semaphore(value: nat, waiters: seq<ThreadId>)

  /** A thread inside `cancel_work_sync`: the run it is waiting for, by its number in `started`. */
  datatype Cancel = Cancel(work: Work, run: int)

  /**
   * `resuming` are the threads in `dowork` between the insertion and the call of `rt_thread_resume`. The last
   * four fields are history: runs begun and ended, and how often each work was put on the list and removed.
   */
  datatype WorkQueue = WorkQueue(
    pending: seq<Work>, current: Option<Work>, sem: Semaphore, worker: Worker,
    resuming: set<ThreadId>, cancels: map<ThreadId, Cancel>,
    started: seq<Work>, finished: nat, queued: multiset<Work>, cancelled: multiset<Work>)

  datatype Step =
    | TestEmpty | Suspend | TakeWork | ReturnFunction | ClearCurrent | Drain
    | DoWork(t: ThreadId, work: Work)
    | ResumeWorker(t: ThreadId)
    | CancelWork(work: Work)
    | CancelSync(t: ThreadId, work: Work)
    | ReturnSync(t: ThreadId)
    | CancelAll

  const INIT :=
    WorkQueue([], None, Semaphore(0, []), AtTop, {}, map[], [], 0, multiset{}, multiset{})

  predicate CanStep(q: WorkQueue, e: Step) {
    match e
    case TestEmpty => q.worker.AtTop?
    case Suspend => q.worker.GoingToSleep?
    case TakeWork => q.worker.ToTake?
    case ReturnFunction => q.worker.Running?
    case ClearCurrent => q.worker.FunctionReturned?
    case Drain => q.worker.ToDrain?
    case DoWork(t, _) => t !in q.resuming && t !in q.cancels
    case ResumeWorker(t) => t in q.resuming
    case CancelWork(_) => true
    case CancelSync(t, _) => t !in q.resuming && t !in q.cancels
    case ReturnSync(t) => t in q.cancels && t !in q.sem.waiters
    case CancelAll => true
  }

  /** The completion loop: every waiter is released, then the semaphore is taken back. */
  function Drained(s: Semaphore): Semaphore {
    if s.value > 0 then s.(value := s.value - 1) else Semaphore(0, [])
  }

  function Removed(q: WorkQueue, work: Work): WorkQueue {
    if work in q.pending
    then q.(pending := Without(q.pending, work), cancelled := q.cancelled + multiset{work})
    else q
  }

  function Inserted(q: WorkQueue, work: Work): WorkQueue {
    q.(pending := Without(q.pending, work) + [work],
       queued := if work in q.pending then q.queued else q.queued + multiset{work})
  }

  function Apply(q: WorkQueue, e: Step): WorkQueue {
    if !CanStep(q, e) then q else
    match e
    case TestEmpty => q.(worker := if q.pending == [] then GoingToSleep else ToTake)
    case Suspend => q.(worker := Asleep)
    case TakeWork =>
      if q.pending == [] then q.(worker := Broken)
      else
        var work := q.pending[0];
        q.(pending := q.pending[1..], current := Some(work), worker := Running(work), started := q.started + [work])
    case ReturnFunction => q.(worker := FunctionReturned(q.worker.work), finished := q.finished + 1)
    case ClearCurrent => q.(current := None, worker := ToDrain)
    case Drain => q.(sem := Drained(q.sem), worker := AtTop)
    case DoWork(t, work) =>
      if q.current == Some(work) then q
      else
        var r := Inserted(q, work);
        if q.current == None then r.(resuming := q.resuming + {t}) else r
    case ResumeWorker(t) =>
      q.(resuming := q.resuming - {t}, worker := if q.worker.Asleep? then ToTake else q.worker)
    case CancelWork(work) => if q.current == Some(work) then q else Removed(q, work)
    case CancelSync(t, work) =>
      if q.current != Some(work) then Removed(q, work)
      else if q.sem.value > 0 then q.(sem := q.sem.(value := q.sem.value - 1))
      else q.(sem := q.sem.(waiters := q.sem.waiters + [t]), cancels := q.cancels[t := Cancel(work, |q.started| - 1)])
    case ReturnSync(t) => q.(cancels := q.cancels - {t})
    case CancelAll => q.(pending := [], cancelled := q.cancelled + multiset(q.pending))
  }

  function Exec(q: WorkQueue, es: seq<Step>): WorkQueue {
    if es == [] then q else Apply(Exec(q, es[..|es| - 1]), es[|es| - 1])
  }

  // List discipline and conservation

  /** A work is on the list at most once and never while it is being run. */
  ghost predicate ListValid(q: WorkQueue) {
    && DupFree(q.pending)
    && (q.current.Some? ==> q.current.value !in q.pending)
    && q.current == if q.worker.Running? || q.worker.FunctionReturned? then Some(q.worker.work) else None
  }

  /** Each time a work was put on the list it was run once, was cancelled once, or is still waiting. */
  ghost predicate Conserved(q: WorkQueue) {
    Balanced(q.queued, q.started, q.cancelled, q.pending)
  }

  ghost predicate Balanced(queued: multiset<Work>, started: seq<Work>, cancelled: multiset<Work>, pending: seq<Work>) {
    queued == multiset(started) + cancelled + multiset(pending)
  }

  lemma {:induction false} WithoutCount(s: seq<Work>, w: Work)
    requires w in s
    ensures multiset(Without(s, w)) + multiset{w} == multiset(s)
  {
    assert s == [s[0]] + s[1..];
    if s[0] != w {
      WithoutCount(s[1..], w);
    }
  }

  lemma {:induction false} WithoutAbsent(s: seq<Work>, w: Work)
    requires w !in s
    ensures Without(s, w) == s
  {
    if s != [] {
      WithoutAbsent(s[1..], w);
    }
  }

  lemma StepKeepsListValid(q: WorkQueue, e: Step)
    requires ListValid(q)
    ensures ListValid(Apply(q, e))
  {
    match e
    case DoWork(_, work) => WithoutIs(q.pending, work);
    case CancelWork(work) => WithoutIs(q.pending, work);
    case CancelSync(_, work) => WithoutIs(q.pending, work);
    case _ =>
  }

  lemma RemovedConserves(q: WorkQueue, w: Work)
    requires Conserved(q)
    ensures Conserved(Removed(q, w))
  {
    if w in q.pending {
      WithoutCount(q.pending, w);
    }
  }

  lemma InsertedConserves(q: WorkQueue, w: Work)
    requires Conserved(q)
    ensures Conserved(Inserted(q, w))
  {
    if w in q.pending {
      WithoutCount(q.pending, w);
    } else {
      WithoutAbsent(q.pending, w);
    }
  }

  lemma TakeConserves(q: WorkQueue)
    requires Conserved(q) && q.pending != []
    ensures Balanced(q.queued, q.started + [q.pending[0]], q.cancelled, q.pending[1..])
  {
    assert q.pending == [q.pending[0]] + q.pending[1..];
  }

  lemma CancelAllConserves(q: WorkQueue)
    requires Conserved(q)
    ensures Balanced(q.queued, q.started, q.cancelled + multiset(q.pending), [])
  {
  }

  lemma StepConserves(q: WorkQueue, e: Step)
    requires Conserved(q)
    ensures Conserved(Apply(q, e))
  {
    hide Balanced, Removed, Inserted, Drained;
    match e
    case DoWork(_, work) => InsertedConserves(q, work);
    case CancelWork(work) => RemovedConserves(q, work);
    case CancelSync(_, work) => RemovedConserves(q, work);
    case CancelAll => CancelAllConserves(q);
    case TakeWork =>
      if q.pending != [] {
        TakeConserves(q);
      }
    case _ =>
  }

  /** Over every schedule the list is sound and no queued work is lost or run twice. */
  lemma {:induction false} ListOverRuns(es: seq<Step>)
    ensures ListValid(Exec(INIT, es)) && Conserved(Exec(INIT, es))
  {
    if es != [] {
      ListOverRuns(es[..|es| - 1]);
      StepKeepsListValid(Exec(INIT, es[..|es| - 1]), es[|es| - 1]);
      StepConserves(Exec(INIT, es[..|es| - 1]), es[|es| - 1]);
    }
  }

  // Waiting cancellation

  predicate InRun(w: Worker) {
    w.Running? || w.FunctionReturned? || w.ToDrain?
  }

  /**
   * The semaphore is zero between drains; its waiters wait for the latest run, which has not been
   * drained yet; a waiter that was released waited for a run whose function has returned.
   */
  ghost predicate Waiting(q: WorkQueue) {
    && ListValid(q)
    && q.sem.value == 0 && DupFree(q.sem.waiters)
    && q.finished == |q.started| - (if q.worker.Running? then 1 else 0)
    && (InRun(q.worker) ==> q.started != [])
    && (q.current.Some? ==> q.started != [] && q.current.value == q.started[|q.started| - 1])
    && (q.sem.waiters != [] ==> InRun(q.worker))
    && (forall t :: t in q.sem.waiters ==> t in q.cancels && q.cancels[t].run == |q.started| - 1)
    && (forall t :: t in q.cancels ==> RunOf(q, q.cancels[t]))
    && (forall t :: t in q.cancels && t !in q.sem.waiters ==> q.cancels[t].run < q.finished)
  }

  predicate RunOf(q: WorkQueue, c: Cancel) {
    0 <= c.run < |q.started| && q.started[c.run] == c.work
  }

  lemma CurrentIsRunning(q: WorkQueue)
    requires ListValid(q)
    ensures q.current == if q.worker.Running? || q.worker.FunctionReturned? then Some(q.worker.work) else None
  {
  }

  lemma WorkerKeepsWaiting(q: WorkQueue, e: Step)
    requires Waiting(q) && ListValid(Apply(q, e))
    requires !e.DoWork? && !e.CancelWork? && !e.CancelSync? && !e.CancelAll?
    ensures Waiting(Apply(q, e))
  {
    CurrentIsRunning(q);
    hide DupFree, ListValid;
    var r := Apply(q, e);
    assert forall c :: RunOf(q, c) ==> RunOf(r, c);
  }

  /** A change of the pending list leaves the cancellations alone. */
  lemma ListKeepsWaiting(q: WorkQueue, r: WorkQueue)
    requires Waiting(q) && ListValid(r)
    requires r.current == q.current && r.sem == q.sem && r.worker == q.worker && r.cancels == q.cancels
    requires r.started == q.started && r.finished == q.finished
    ensures Waiting(r)
  {
    hide ListValid;
    assert forall c :: RunOf(q, c) <==> RunOf(r, c);
  }

  lemma SyncKeepsWaiting(q: WorkQueue, t: ThreadId, work: Work)
    requires Waiting(q) && ListValid(Apply(q, CancelSync(t, work)))
    requires CanStep(q, CancelSync(t, work)) && q.current == Some(work)
    ensures Waiting(Apply(q, CancelSync(t, work)))
  {
    CurrentIsRunning(q);
    hide ListValid;
    var r := Apply(q, CancelSync(t, work));
    assert forall c :: RunOf(q, c) <==> RunOf(r, c);
  }

  lemma ThreadKeepsWaiting(q: WorkQueue, e: Step)
    requires Waiting(q) && ListValid(Apply(q, e))
    requires e.DoWork? || e.CancelWork? || e.CancelSync? || e.CancelAll?
    ensures Waiting(Apply(q, e))
  {
    hide Waiting, ListValid, Without;
    if e.CancelSync? && CanStep(q, e) && q.current == Some(e.work) {
      SyncKeepsWaiting(q, e.t, e.work);
    } else {
      ListKeepsWaiting(q, Apply(q, e));
    }
  }

  lemma StepKeepsWaiting(q: WorkQueue, e: Step)
    requires Waiting(q) && ListValid(Apply(q, e))
    ensures Waiting(Apply(q, e))
  {
    hide Waiting, ListValid, Apply;
    if e.DoWork? || e.CancelWork? || e.CancelSync? || e.CancelAll? {
      ThreadKeepsWaiting(q, e);
    } else {
      WorkerKeepsWaiting(q, e);
    }
  }

  lemma {:induction false} WaitingOverRuns(es: seq<Step>)
    ensures Waiting(Exec(INIT, es))
  {
    ListOverRuns(es);
    if es != [] {
      WaitingOverRuns(es[..|es| - 1]);
      StepKeepsWaiting(Exec(INIT, es[..|es| - 1]), es[|es| - 1]);
    }
  }

  /**
   * Over every schedule, a thread that had to wait in `cancel_work_sync` can return only after the
   * function of the very run it waited for has returned.
   */
  lemma SyncCancelReturnsLate(es: seq<Step>, t: ThreadId)
    ensures var q := Exec(INIT, es);
      CanStep(q, ReturnSync(t)) ==>
        0 <= q.cancels[t].run < q.finished <= |q.started| && q.started[q.cancels[t].run] == q.cancels[t].work
  {
    WaitingOverRuns(es);
    var q := Exec(INIT, es);
    assert t in q.cancels ==> RunOf(q, q.cancels[t]);
  }

  /** And it is not forgotten: after the three steps the worker takes next, whatever the state, it can return. */
  lemma SyncCancelIsReleased(es: seq<Step>, t: ThreadId)
    ensures var q := Exec(INIT, es);
      t in q.cancels ==> CanStep(Apply(Apply(Apply(q, ReturnFunction), ClearCurrent), Drain), ReturnSync(t))
  {
    WaitingOverRuns(es);
  }

  // Wake-ups of the worker

  /** Work is waiting, and a worker on its way to sleep will be resumed by somebody. */
  ghost predicate Remembered(q: WorkQueue) {
    q.pending != [] && (q.worker.GoingToSleep? || q.worker.Asleep?) ==> q.resuming != {}
  }

  /** A worker about to take a work finds one. */
  ghost predicate Fed(q: WorkQueue) {
    !q.worker.Broken? && (q.worker.ToTake? ==> q.pending != [])
  }

  /** The last resume comes between the worker's test of the list and its suspension. */
  predicate MissedWake(q: WorkQueue, e: Step) {
    e.ResumeWorker? && CanStep(q, e) && q.worker.GoingToSleep? && q.pending != [] && q.resuming == {e.t}
  }

  /** A sleeping worker is resumed with nothing to do, or the last work goes away under a worker about to take it. */
  predicate Starves(q: WorkQueue, e: Step) {
    && CanStep(q, e)
    && match e
       case ResumeWorker(_) => q.worker.Asleep? && q.pending == []
       case CancelWork(work) => q.worker.ToTake? && q.pending == [work]
       case CancelSync(_, work) => q.worker.ToTake? && q.pending == [work]
       case CancelAll => q.worker.ToTake?
       case _ => false
  }

  lemma WithoutEmpty(s: seq<Work>, w: Work)
    ensures Without(s, w) == [] <==> s == [] || s == [w]
  {
  }

  lemma StepKeepsRemembered(q: WorkQueue, e: Step)
    requires ListValid(q) && Remembered(q)
    ensures Remembered(Apply(q, e)) <==> !MissedWake(q, e)
  {
    hide DupFree;
    match e
    case DoWork(t, work) =>
      if CanStep(q, e) && q.current == None {
        assert t in Apply(q, e).resuming;
      }
    case ResumeWorker(t) =>
      if CanStep(q, e) && q.resuming != {t} {
        var u :| u in q.resuming && u != t;
        assert u in Apply(q, e).resuming;
      }
    case CancelWork(work) => WithoutEmpty(q.pending, work);
    case CancelSync(t, work) => WithoutEmpty(q.pending, work);
    case _ =>
  }

  lemma StepKeepsFed(q: WorkQueue, e: Step)
    requires ListValid(q) && Fed(q)
    ensures Fed(Apply(q, e)) <==> !Starves(q, e)
  {
    hide DupFree;
    match e
    case CancelWork(work) => WithoutEmpty(q.pending, work);
    case CancelSync(t, work) => WithoutEmpty(q.pending, work);
    case _ =>
  }

  ghost predicate Tended(q: WorkQueue) {
    Remembered(q) && Fed(q)
  }

  predicate Neglects(q: WorkQueue, e: Step) {
    MissedWake(q, e) || Starves(q, e)
  }

  lemma StepKeepsTended(q: WorkQueue, e: Step)
    requires ListValid(q) && Tended(q)
    ensures Tended(Apply(q, e)) <==> !Neglects(q, e)
  {
    StepKeepsRemembered(q, e);
    StepKeepsFed(q, e);
  }

  ghost predicate AlwaysTended(es: seq<Step>) {
    forall n :: 0 <= n <= |es| ==> Tended(Exec(INIT, es[..n]))
  }

  ghost predicate NeverNeglects(es: seq<Step>) {
    forall n :: 0 <= n < |es| ==> !Neglects(Exec(INIT, es[..n]), es[n])
  }

  lemma AlwaysSnoc(es: seq<Step>, e: Step)
    ensures AlwaysTended(es + [e]) <==> AlwaysTended(es) && Tended(Exec(INIT, es + [e]))
  {
    hide Tended, Exec;
    assert forall n :: 0 <= n <= |es| ==> (es + [e])[..n] == es[..n];
    assert (es + [e])[..|es| + 1] == es + [e];
  }

  lemma NeverSnoc(es: seq<Step>, e: Step)
    ensures NeverNeglects(es + [e]) <==> NeverNeglects(es) && !Neglects(Exec(INIT, es), e)
  {
    hide Neglects, Exec;
    assert forall n :: 0 <= n <= |es| ==> (es + [e])[..n] == es[..n];
    assert es[..|es|] == es;
  }

  lemma InitTended()
    ensures Tended(INIT)
  {
  }

  /**
   * At every point of a schedule pending work has somebody to wake the worker and the worker
   * finds work when it takes one, if and only if no step of the schedule is of the neglecting kinds.
   */
  lemma {:induction false} TendedExactly(es: seq<Step>)
    ensures AlwaysTended(es) <==> NeverNeglects(es)
  {
    if es == [] {
      InitTended();
      assert es[..0] == [];
    } else {
      var before, e := es[..|es| - 1], es[|es| - 1];
      assert es == before + [e];
      TendedExactly(before);
      AlwaysSnoc(before, e);
      NeverSnoc(before, e);
      ListOverRuns(before);
      ExecSnoc(INIT, before, e);
      hide Tended, Neglects, Apply, Exec, NeverNeglects;
      if AlwaysTended(before) {
        assert before[..|before|] == before;
        StepKeepsTended(Exec(INIT, before), e);
      }
    }
  }

  // Schedules the source does not survive

  lemma ExecNil(q: WorkQueue)
    ensures Exec(q, []) == q
  {
  }

  lemma ExecSnoc(q: WorkQueue, es: seq<Step>, e: Step)
    ensures Exec(q, es + [e]) == Apply(Exec(q, es), e)
  {
    assert (es + [e])[..|es|] == es;
  }

  /** A work that is cancelled after it woke the worker leaves the worker to take from an empty list. */
  lemma CancelledWakeBreaks(t: ThreadId, w: Work) returns (es: seq<Step>)
    ensures Exec(INIT, es).worker == Broken
  {
    hide Exec;
    var es1 := [] + [TestEmpty];
    var es2 := es1 + [Suspend];
    var es3 := es2 + [DoWork(t, w)];
    var es4 := es3 + [ResumeWorker(t)];
    var es5 := es4 + [CancelWork(w)];
    es := es5 + [TakeWork];
    assert Exec(INIT, es3) ==
        WorkQueue([w], None, Semaphore(0, []), Asleep, {t}, map[], [], 0, multiset{w}, multiset{}) by {
      ExecNil(INIT);
      ExecSnoc(INIT, [], TestEmpty);
      ExecSnoc(INIT, es1, Suspend);
      ExecSnoc(INIT, es2, DoWork(t, w));
    }
    ExecSnoc(INIT, es3, ResumeWorker(t));
    ExecSnoc(INIT, es4, CancelWork(w));
    ExecSnoc(INIT, es5, TakeWork);
  }

  /** A work is submitted and run while the submitter has not yet resumed the worker. */
  lemma RunBeforeResume(t: ThreadId, w: Work) returns (es: seq<Step>)
    ensures var q := Exec(INIT, es);
      q.worker == AtTop && q.pending == [] && t in q.resuming && q.started == [w] && q.cancelled == multiset{}
  {
    hide Exec;
    var es1 := [] + [DoWork(t, w)];
    var es2 := es1 + [TestEmpty];
    var es3 := es2 + [TakeWork];
    var es4 := es3 + [ReturnFunction];
    var es5 := es4 + [ClearCurrent];
    es := es5 + [Drain];
    assert Exec(INIT, es3) ==
        WorkQueue([], Some(w), Semaphore(0, []), Running(w), {t}, map[], [w], 0, multiset{w}, multiset{}) by {
      ExecNil(INIT);
      ExecSnoc(INIT, [], DoWork(t, w));
      ExecSnoc(INIT, es1, TestEmpty);
      ExecSnoc(INIT, es2, TakeWork);
    }
    ExecSnoc(INIT, es3, ReturnFunction);
    ExecSnoc(INIT, es4, ClearCurrent);
    ExecSnoc(INIT, es5, Drain);
  }

  /** Even without a cancellation: a resume that comes after the work was run wakes the worker to an empty list. */
  lemma LateResumeBreaks(t: ThreadId, w: Work) returns (es: seq<Step>)
    ensures var q := Exec(INIT, es); q.worker == Broken && q.started == [w] && q.cancelled == multiset{}
  {
    hide Exec;
    var es0 := RunBeforeResume(t, w);
    var es1 := es0 + [TestEmpty];
    var es2 := es1 + [Suspend];
    var es3 := es2 + [ResumeWorker(t)];
    es := es3 + [TakeWork];
    ExecSnoc(INIT, es0, TestEmpty);
    ExecSnoc(INIT, es1, Suspend);
    ExecSnoc(INIT, es2, ResumeWorker(t));
    ExecSnoc(INIT, es3, TakeWork);
  }

  /** A resume in the wrong place leaves work on the list with the worker asleep and nobody to wake it. */
  lemma MissedWakeForgets(t: ThreadId, w: Work) returns (es: seq<Step>)
    ensures var q := Exec(INIT, es); q.pending == [w] && q.worker == Asleep && q.resuming == {}
  {
    hide Exec;
    var es1 := [] + [TestEmpty];
    var es2 := es1 + [DoWork(t, w)];
    var es3 := es2 + [ResumeWorker(t)];
    es := es3 + [Suspend];
    ExecNil(INIT);
    ExecSnoc(INIT, [], TestEmpty);
    ExecSnoc(INIT, es1, DoWork(t, w));
    ExecSnoc(INIT, es2, ResumeWorker(t));
    ExecSnoc(INIT, es3, Suspend);
  }
}
