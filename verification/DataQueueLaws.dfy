/** What each call of the data queue does to contents, wait lists and callers, and which item a push stores. */
module DataQueueLaws {
  import opened Common
  import opened Kernel
  import opened DataQueueModel
  import opened DataQueueWakeups
  import opened DataQueueFifo

  /** Nothing changes for any thread but `t`. */
  ghost predicate OthersStay<T>(q: Queue<T>, r: Queue<T>, t: ThreadId) {
    forall u :: u != t ==> StaysAs(q, r, u)
  }

  predicate StaysAs<T(==)>(q: Queue<T>, r: Queue<T>, u: ThreadId) {
    (u in r.callers <==> u in q.callers) && (u in q.callers ==> r.callers[u] == q.callers[u])
  }

  /** The pusher sleeps: last on its list, with its own item. */
  ghost predicate SleepsInPush<T>(q: Queue<T>, r: Queue<T>, t: ThreadId, item: T, wait: Wait) {
    && r.pushed == q.pushed && r.popped == q.popped && r.slots == q.slots
    && r.pushList == q.pushList + [t] && r.popList == q.popList
    && t in r.callers && r.callers[t] == PushAsleep(item, wait) && OthersStay(q, r, t)
  }

  ghost predicate SleepsInPop<T>(q: Queue<T>, r: Queue<T>, t: ThreadId, wait: Wait) {
    && r.pushed == q.pushed && r.popped == q.popped && r.slots == q.slots
    && r.popList == q.popList + [t] && r.pushList == q.pushList
    && t in r.callers && r.callers[t] == PopAsleep(wait) && OthersStay(q, r, t)
  }

  /** The first sleeping popper, if any, and nobody else is resumed without an error. */
  ghost predicate ResumesFirstPopper<T>(q: Queue<T>, r: Queue<T>) {
    && r.pushList == q.pushList
    && if q.popList == [] then r.popList == [] && r.callers == q.callers
       else
         var first := q.popList[0];
         && r.popList == q.popList[1..] && OthersStay(q, r, first)
         && first in q.callers && q.callers[first].PopAsleep?
         && first in r.callers && r.callers[first] == PopReady(q.callers[first].wait, EOK)
  }

  ghost predicate ResumesFirstPusher<T>(q: Queue<T>, r: Queue<T>) {
    && r.popList == q.popList
    && if q.pushList == [] then r.pushList == [] && r.callers == q.callers
       else
         var first := q.pushList[0];
         && r.pushList == q.pushList[1..] && OthersStay(q, r, first)
         && first in q.callers && q.callers[first].PushAsleep?
         && first in r.callers
         && r.callers[first] == PushReady(q.callers[first].item, q.callers[first].wait, EOK)
  }

  ghost predicate ResumesNobody<T>(q: Queue<T>, r: Queue<T>) {
    r.pushList == q.pushList && r.popList == q.popList && r.callers == q.callers
  }

  /**
   * A push into a queue that is full, with indices that show it, fails or sleeps. Any other push stores its own
   * item behind the others and resumes the first sleeping popper.
   */
  lemma PushLaw<T>(q: Queue<T>, t: ThreadId, item: T, wait: Wait)
    requires Valid(q) && !Overrun(q) && t !in q.callers
    ensures var r := Apply(q, PushBegin(t, item, wait));
      if Stored(q) == q.size && q.getIndex <= q.putIndex then
        if wait.NoWait? then r == q else SleepsInPush(q, r, t, item, wait)
      else
        r.pushed == q.pushed + [item] && r.popped == q.popped && ResumesFirstPopper(q, r)
  {
    HeadsSleep(q);
    FullTestExact(q);
    hide Truncate16, DupFree;
  }

  /** The low-water test succeeds early only while wrapped indices make the queue look empty. */
  predicate LowWater<T>(q: Queue<T>) {
    Stored(q) - 1 <= q.lwm || (q.putIndex < q.getIndex && q.getIndex < 0xFFFF)
  }

  lemma LowWaterTest<T>(q: Queue<T>)
    requires Fifo(q) && Contents(q) != []
    ensures Take(q).putIndex - Take(q).getIndex <= q.lwm <==> LowWater(q)
  {
    FullTestExact(q);
    EmptyTestExact(q);
    TruncateNear(q.getIndex + 1);
    ModUnique(Stored(q), MODULUS_16, 0, Stored(q));
    DifferenceBelowStored(q);
    TruncateNear(q.putIndex - q.getIndex);
  }

  /**
   * A pop from an empty queue fails or sleeps. Any other pop takes the oldest item, and resumes the first sleeping
   * pusher if the items left are at or below the low-water mark, and otherwise nobody.
   */
  lemma PopLaw<T>(q: Queue<T>, t: ThreadId, wait: Wait)
    requires Fifo(q) && t !in q.callers
    ensures var r := Apply(q, PopBegin(t, wait));
      if Contents(q) == [] then
        if wait.NoWait? then r == q else SleepsInPop(q, r, t, wait)
      else
        && r.popped == q.popped + [Contents(q)[0]] && r.pushed == q.pushed && r.slots == q.slots
        && if LowWater(q) then ResumesFirstPusher(q, r) else ResumesNobody(q, r)
  {
    HeadsSleep(q);
    EmptyTestExact(q);
    if Contents(q) != [] {
      TakeKeepsFifo(q);
      LowWaterTest(q);
    }
    hide Truncate16, DupFree, LowWater, SlotsLive;
  }

  /** A resumed thread with no error tests again, as a new call with its own item and timeout would. */
  lemma RecheckLaw<T>(q: Queue<T>, t: ThreadId)
    requires Valid(q) && t in q.callers
    ensures var c := q.callers[t];
      && ((c.PushReady? || c.PopReady?) ==> Valid(Leave(q, t)))
      && (c.PushReady? && c.error == EOK ==>
           Apply(q, PushRecheck(t)) == Apply(Leave(q, t), PushBegin(t, c.item, c.wait)))
      && (c.PopReady? && c.error == EOK ==> Apply(q, PopRecheck(t)) == Apply(Leave(q, t), PopBegin(t, c.wait)))
  {
    if q.callers[t].PushReady? || q.callers[t].PopReady? {
      LeaveValid(q, t);
    }
  }

  /** It takes nothing along when it leaves: a resumed pusher stores its item, whoever else is there. */
  lemma ResumedPushStoresItsItem<T>(q: Queue<T>, t: ThreadId)
    requires Valid(q) && t in q.callers && q.callers[t].PushReady? && q.callers[t].error == EOK && !Full(q)
    ensures Apply(q, PushRecheck(t)).pushed == q.pushed + [q.callers[t].item]
    ensures t !in Apply(q, PushRecheck(t)).callers
  {
    HeadsSleep(q);
    LeaveValid(q, t);
  }

  /** The thread has gone, and that is all. */
  ghost predicate Left<T>(q: Queue<T>, r: Queue<T>, t: ThreadId) {
    && r == q.(callers := r.callers) && t !in r.callers && OthersStay(q, r, t)
  }

  /** A thread resumed with an error leaves, and stores and takes nothing. */
  lemma FailedCallLeaves<T>(q: Queue<T>, t: ThreadId)
    requires Valid(q) && t in q.callers
    ensures var c := q.callers[t];
      && (c.PushReady? && c.error != EOK ==> Left(q, Apply(q, PushRecheck(t)), t))
      && (c.PopReady? && c.error != EOK ==> Left(q, Apply(q, PopRecheck(t)), t))
  {
  }

  /** The caller `t` is awake with this error, still with its own item and timeout. */
  predicate AwakeWith<T(==)>(q: Queue<T>, r: Queue<T>, t: ThreadId, error: Error) {
    && t in q.callers && t in r.callers
    && (q.callers[t].PushAsleep? ==> r.callers[t] == PushReady(q.callers[t].item, q.callers[t].wait, error))
    && (q.callers[t].PopAsleep? ==> r.callers[t] == PopReady(q.callers[t].wait, error))
  }

  /** One thread leaves a wait list in whose order nothing else changes. */
  ghost predicate OffList(before: seq<ThreadId>, after: seq<ThreadId>, t: ThreadId) {
    exists i :: 0 <= i < |before| && before[i] == t && after == before[..i] + before[i + 1..]
  }

  /** A timeout wakes that thread with the timeout error, and changes nothing else. */
  lemma TimeoutLaw<T>(q: Queue<T>, t: ThreadId)
    requires Valid(q) && t in q.callers && (q.callers[t].PushAsleep? || q.callers[t].PopAsleep?)
    requires q.callers[t].wait == Timed
    ensures var r := Apply(q, Event<T>.Timeout(t));
      && AwakeWith(q, r, t, ETIMEOUT) && OthersStay(q, r, t)
      && r == q.(callers := r.callers, pushList := r.pushList, popList := r.popList)
      && (if q.callers[t].PushAsleep? then OffList(q.pushList, r.pushList, t) else r.pushList == q.pushList)
      && (if q.callers[t].PopAsleep? then OffList(q.popList, r.popList, t) else r.popList == q.popList)
  {
    assert IsPushAsleep(q, t) || IsPopAsleep(q, t);
    var i := WithoutKeepsOrder(q.pushList, t);
    var j := WithoutKeepsOrder(q.popList, t);
  }

  /** One step of a reset wakes the first thread of its list with the general error. */
  lemma ResetStepLaw<T>(q: Queue<T>)
    requires Valid(q)
    ensures q.popList != [] ==>
      var r := Apply(q, Event<T>.ResetPop);
      && r == q.(callers := r.callers, popList := q.popList[1..])
      && AwakeWith(q, r, q.popList[0], ERROR) && OthersStay(q, r, q.popList[0])
    ensures q.pushList != [] ==>
      var r := Apply(q, Event<T>.ResetPush);
      && r == q.(callers := r.callers, pushList := q.pushList[1..])
      && AwakeWith(q, r, q.pushList[0], ERROR) && OthersStay(q, r, q.pushList[0])
  {
    HeadsSleep(q);
  }

  /**
   * After a whole reset nobody sleeps; whoever slept leaves its call with the general error and stores and takes
   * nothing; the others and the contents are as before.
   */
  lemma WholeResetLaw<T>(q: Queue<T>, t: ThreadId)
    requires Valid(q)
    ensures var r := WholeReset(q);
      && Valid(r) && r.pushList == r.popList == [] && r == q.(pushList := [], popList := [], callers := r.callers)
      && (if IsPushAsleep(q, t) || IsPopAsleep(q, t) then AwakeWith(q, r, t, ERROR) else StaysAs(q, r, t))
      && (IsPushAsleep(q, t) ==> Left(r, Apply(r, PushRecheck(t)), t))
      && (IsPopAsleep(q, t) ==> Left(r, Apply(r, PopRecheck(t)), t))
  {
    var r := WholeReset(q);
    assert forall u :: !IsPushAsleep(r, u) && !IsPopAsleep(r, u);
    if t in r.callers {
      FailedCallLeaves(r, t);
    }
  }

  // Which item a push stores

  /** The item of the last push that thread `t` began in a run. */
  function Given<T>(q0: Queue<T>, es: seq<Event<T>>, t: ThreadId): Option<T>
    requires Valid(q0)
  {
    if es == [] then None else
    var before, e := es[..|es| - 1], es[|es| - 1];
    if e.PushBegin? && e.t == t && Enabled(Exec(q0, before), e) then Some(e.item) else Given(q0, before, t)
  }

  /** A thread inside push, asleep or resumed, has the item of its call. */
  predicate HasItem<T(==)>(q: Queue<T>, t: ThreadId, given: Option<T>) {
    t in q.callers && (q.callers[t].PushAsleep? || q.callers[t].PushReady?) ==> given == Some(q.callers[t].item)
  }

  lemma StepKeepsItem<T>(q: Queue<T>, e: Event<T>, t: ThreadId, given: Option<T>)
    requires Valid(q) && HasItem(q, t, given)
    ensures HasItem(Apply(q, e), t, if e.PushBegin? && e.t == t && Enabled(q, e) then Some(e.item) else given)
  {
    HeadsSleep(q);
    hide IndicesValid, DupFree;
  }

  lemma {:induction false} CallersKeepItems<T>(q0: Queue<T>, es: seq<Event<T>>, t: ThreadId)
    requires Valid(q0) && q0.callers == map[]
    ensures HasItem(Exec(q0, es), t, Given(q0, es, t))
  {
    if es != [] {
      CallersKeepItems(q0, es[..|es| - 1], t);
      StepKeepsItem(Exec(q0, es[..|es| - 1]), es[|es| - 1], t, Given(q0, es[..|es| - 1], t));
    }
  }

  /** Only a thread inside push stores, and one item at a time. */
  lemma OnlyPushesStore<T>(q: Queue<T>, e: Event<T>)
    requires Valid(q)
    ensures var r := Apply(q, e);
      r.pushed == q.pushed
      || (e.PushBegin? && Enabled(q, e) && r.pushed == q.pushed + [e.item])
      || (e.PushRecheck? && Enabled(q, e) && r.pushed == q.pushed + [q.callers[e.t].item])
  {
    HeadsSleep(q);
    hide IndicesValid, DupFree;
  }

  /**
   * In every run, whatever sleeps, wake-ups, timeouts and resets come in between, what a step
   * stores is the item that its thread gave to the push it is in.
   */
  lemma StoredItemsAreGiven<T>(q0: Queue<T>, es: seq<Event<T>>, e: Event<T>)
    requires Valid(q0) && q0.callers == map[]
    ensures var q, r := Exec(q0, es), Exec(q0, es + [e]);
      r.pushed == q.pushed
      || ((e.PushBegin? || e.PushRecheck?)
          && Given(q0, es + [e], e.t).Some? && r.pushed == q.pushed + [Given(q0, es + [e], e.t).value])
  {
    ExecStep(q0, es, e);
    OnlyPushesStore(Exec(q0, es), e);
    assert (es + [e])[..|es|] == es;
    hide Apply;
    if e.PushRecheck? {
      CallersKeepItems(q0, es, e.t);
    }
  }
}
