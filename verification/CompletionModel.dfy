/** The completion of rt_ext/completion.c as a transition system: one step per interrupts-off region. */
module CompletionModel {
  import opened Kernel

  /** A thread inside `wait`, and its `thread->error` once it was resumed. */
  datatype Waiter = Asleep(wait: Wait) | Resumed(error: Error)

  /**
   * `completed` is the flag. The counters are history: how often `done` set the flag, how
   * many waits returned `RT_EOK`, and how often a wait that had timed out cleared a set flag.
   */
  datatype Completion = Completion(
    completed: bool, suspended: seq<ThreadId>, threads: map<ThreadId, Waiter>,
    signals: nat, delivered: nat, dropped: nat)

  datatype Event = Enter(t: ThreadId, wait: Wait) | Exit(t: ThreadId) | Done | Timeout(t: ThreadId)

  const INIT := Completion(false, [], map[], 0, 0, 0)

  predicate IsAsleep(c: Completion, t: ThreadId) {
    t in c.threads && c.threads[t].Asleep?
  }

  /** `wait` asserts that nobody else is suspended. */
  predicate Enabled(c: Completion, e: Event) {
    match e
    case Enter(t, _) => t !in c.threads && (!c.completed ==> c.suspended == [])
    case Exit(t) => t in c.threads && c.threads[t].Resumed?
    case Done => true
    case Timeout(t) => IsAsleep(c, t) && c.threads[t].wait.Timed?
  }

  function Resume(c: Completion, t: ThreadId, error: Error): Completion {
    c.(suspended := Without(c.suspended, t), threads := c.threads[t := Resumed(error)])
  }

  function Apply(c: Completion, e: Event): Completion {
    if !Enabled(c, e) then c else
    match e
    case Enter(t, wait) =>
      if c.completed then c.(completed := false, delivered := c.delivered + 1)
      else if wait.NoWait? then c
      else c.(suspended := c.suspended + [t], threads := c.threads[t := Asleep(wait)])
    case Exit(t) =>
      var left := c.(completed := false, threads := c.threads - {t});
      if c.threads[t].error == EOK then left.(delivered := c.delivered + 1)
      else left.(dropped := c.dropped + if c.completed then 1 else 0)
    case Done =>
      if c.completed then c
      else
        var signalled := c.(completed := true, signals := c.signals + 1);
        if c.suspended == [] then signalled else Resume(signalled, c.suspended[0], EOK)
    case Timeout(t) => Resume(c, t, ETIMEOUT)
  }

  /** A set flag means that nobody sleeps, so the early return of `done` forgets no one. */
  ghost predicate Valid(c: Completion) {
    && |c.suspended| <= 1
    && (forall t :: t in c.suspended <==> IsAsleep(c, t))
    && (c.completed ==> c.suspended == [])
  }

  lemma ApplyValid(c: Completion, e: Event)
    requires Valid(c)
    ensures Valid(Apply(c, e))
  {
    var r := Apply(c, e);
    if Enabled(c, e) {
      match e
      case Enter(t, wait) =>
        assert forall u :: u != t ==> (IsAsleep(r, u) <==> IsAsleep(c, u));
      case Exit(t) =>
        assert forall u :: IsAsleep(r, u) <==> IsAsleep(c, u);
      case Done =>
        if !c.completed && c.suspended != [] {
          var t := c.suspended[0];
          assert t in c.suspended && c.suspended == [t];
          assert forall u :: IsAsleep(r, u) <==> u != t && IsAsleep(c, u);
        } else {
          assert forall u :: IsAsleep(r, u) <==> IsAsleep(c, u);
        }
      case Timeout(t) =>
        assert t in c.suspended && c.suspended == [t];
        assert forall u :: IsAsleep(r, u) <==> u != t && IsAsleep(c, u);
    }
  }

  function Exec(c: Completion, es: seq<Event>): (r: Completion) {
    if es == [] then c else Apply(Exec(c, es[..|es| - 1]), es[|es| - 1])
  }

  /** Over every schedule: at most one sleeper, and none at all once the flag is set. */
  lemma {:induction false} NobodySleepsCompleted(es: seq<Event>)
    ensures Valid(Exec(INIT, es))
  {
    if es != [] {
      NobodySleepsCompleted(es[..|es| - 1]);
      ApplyValid(Exec(INIT, es[..|es| - 1]), es[|es| - 1]);
    }
  }

  /** Nothing changes for any thread but `t`. */
  ghost predicate OthersStay(c: Completion, r: Completion, t: ThreadId) {
    forall u :: u != t ==> (u in r.threads <==> u in c.threads) && (u in c.threads ==> r.threads[u] == c.threads[u])
  }

  /** A wait consumes a set flag; otherwise it fails at once, or its thread sleeps with its own timeout. */
  lemma EnterLaw(c: Completion, t: ThreadId, wait: Wait)
    requires Valid(c) && t !in c.threads && (c.completed || c.suspended == [])
    ensures var r := Apply(c, Enter(t, wait));
      && OthersStay(c, r, t) && r.signals == c.signals && r.dropped == c.dropped
      && (c.completed ==> !r.completed && r.threads == c.threads && r.delivered == c.delivered + 1)
      && (!c.completed && wait == NoWait ==> r == c)
      && (!c.completed && wait != NoWait ==>
        && !r.completed && r.suspended == [t] && t in r.threads && r.threads[t] == Asleep(wait)
        && r.delivered == c.delivered)
  {
  }

  /** A signal sets the flag and wakes the sleeper, if there is one, without an error; a second one does nothing. */
  lemma DoneLaw(c: Completion, t: ThreadId)
    requires Valid(c)
    ensures var r := Apply(c, Done);
      && r.completed && r.suspended == [] && !IsAsleep(r, t)
      && (c.completed ==> r == c)
      && (!c.completed ==> r.signals == c.signals + 1 && r.delivered == c.delivered && r.dropped == c.dropped)
      && (IsAsleep(c, t) ==> r.threads[t] == Resumed(EOK) && OthersStay(c, r, t))
      && (c.suspended == [] ==> r.threads == c.threads)
  {
    ApplyValid(c, Done);
    assert IsAsleep(c, t) ==> t in c.suspended;
    assert IsAsleep(Apply(c, Done), t) ==> t in Apply(c, Done).suspended;
  }

  /** A timeout wakes its thread with the timeout error and leaves the flag alone. */
  lemma TimeoutLaw(c: Completion, t: ThreadId)
    requires Valid(c) && t in c.threads && c.threads[t] == Asleep(Timed)
    ensures var r := Apply(c, Timeout(t));
      && t in r.threads && r.threads[t] == Resumed(ETIMEOUT) && r.suspended == [] && OthersStay(c, r, t)
      && r == c.(threads := r.threads, suspended := r.suspended)
  {
    assert t in c.suspended && c.suspended == [t];
  }

  /** A thread that wakes up clears the flag, whoever set it, and is gone. */
  lemma ExitLaw(c: Completion, t: ThreadId)
    requires t in c.threads && c.threads[t].Resumed?
    ensures var r := Apply(c, Exit(t));
      && !r.completed && t !in r.threads && OthersStay(c, r, t) && r.suspended == c.suspended
      && r.delivered == c.delivered + (if c.threads[t] == Resumed(EOK) then 1 else 0)
  {
  }

  // Delivery of signals

  /** A wait that has timed out ends after the signal it was waiting for, and clears it. */
  predicate LateExit(c: Completion, e: Event) {
    e.Exit? && Enabled(c, e) && c.threads[e.t].error != EOK && c.completed
  }

  /** A resumed wait ends after another wait has taken its signal. */
  predicate Stolen(c: Completion, e: Event) {
    e.Exit? && Enabled(c, e) && c.threads[e.t].error == EOK && !c.completed
  }

  function Pending(c: Completion): nat {
    if c.completed then 1 else 0
  }

  lemma StepCounts(c: Completion, e: Event)
    ensures var r := Apply(c, e);
      && r.dropped == c.dropped + (if LateExit(c, e) then 1 else 0)
      && r.delivered + r.dropped + Pending(r) - r.signals ==
         c.delivered + c.dropped + Pending(c) - c.signals + (if Stolen(c, e) then 1 else 0)
  {
  }

  /** No step of the run is a late exit. */
  ghost predicate NeverLate(es: seq<Event>) {
    es != [] ==> NeverLate(es[..|es| - 1]) && !LateExit(Exec(INIT, es[..|es| - 1]), es[|es| - 1])
  }

  /** No step of the run steals a signal. */
  ghost predicate NeverStolen(es: seq<Event>) {
    es != [] ==> NeverStolen(es[..|es| - 1]) && !Stolen(Exec(INIT, es[..|es| - 1]), es[|es| - 1])
  }

  /**
   * Over every schedule of any threads each signal is delivered, pending or dropped; it is so only once if and only
   * if no resumed wait finds its signal taken, and none is dropped if and only if no timed-out wait clears one.
   */
  lemma {:induction false} DeliveredExactly(es: seq<Event>)
    ensures var c := Exec(INIT, es);
      && c.signals <= c.delivered + c.dropped + Pending(c)
      && (c.signals == c.delivered + c.dropped + Pending(c) <==> NeverStolen(es))
      && (c.dropped == 0 <==> NeverLate(es))
  {
    if es != [] {
      var before, e := es[..|es| - 1], es[|es| - 1];
      DeliveredExactly(before);
      StepCounts(Exec(INIT, before), e);
      hide Apply, LateExit, Stolen, Pending;
    }
  }

  ghost predicate SoleWaiter(es: seq<Event>, w: ThreadId) {
    forall i :: 0 <= i < |es| ==> es[i].Done? || es[i].t == w
  }

  /** A resumed thread that is alone still has its signal in the flag. */
  ghost predicate Kept(c: Completion, w: ThreadId) {
    && Valid(c) && c.threads.Keys <= {w}
    && (w in c.threads && c.threads[w] == Resumed(EOK) ==> c.completed)
  }

  lemma StepKeepsSignal(c: Completion, e: Event, w: ThreadId)
    requires Kept(c, w) && (e.Done? || e.t == w)
    ensures Kept(Apply(c, e), w) && !Stolen(c, e)
  {
    ApplyValid(c, e);
    if c.suspended != [] {
      assert c.suspended[0] in c.suspended;
      assert IsAsleep(c, c.suspended[0]);
    }
  }

  /** With one waiting thread no signal is ever stolen. */
  lemma {:induction false} SoleWaiterKeepsSignals(es: seq<Event>, w: ThreadId)
    requires SoleWaiter(es, w)
    ensures Kept(Exec(INIT, es), w) && NeverStolen(es)
  {
    if es != [] {
      var before, e := es[..|es| - 1], es[|es| - 1];
      SoleWaiterKeepsSignals(before, w);
      StepKeepsSignal(Exec(INIT, before), e, w);
    }
  }

  /** So with one waiting thread every signal is delivered once or pending if and only if no wait ends late. */
  lemma SoleWaiterExactly(es: seq<Event>, w: ThreadId)
    requires SoleWaiter(es, w)
    ensures var c := Exec(INIT, es); c.signals == c.delivered + Pending(c) <==> NeverLate(es)
  {
    DeliveredExactly(es);
    SoleWaiterKeepsSignals(es, w);
  }

  lemma ExecNil(c: Completion)
    ensures Exec(c, []) == c
  {
  }

  lemma ExecSnoc(c: Completion, es: seq<Event>, e: Event)
    ensures Exec(c, es + [e]) == Apply(Exec(c, es), e)
  {
    assert (es + [e])[..|es|] == es;
  }

  /** Such a theft: with two waiting threads one signal ends two waits. */
  lemma OneSignalTwoWaits() returns (es: seq<Event>)
    ensures Exec(INIT, es).signals == 1 && Exec(INIT, es).delivered == 2
  {
    hide Exec;
    var es1 := [] + [Enter(0, Forever)];
    var es2 := es1 + [Done];
    var es3 := es2 + [Enter(1, Forever)];
    es := es3 + [Exit(0)];
    ExecNil(INIT);
    ExecSnoc(INIT, [], Enter(0, Forever));
    ExecSnoc(INIT, es1, Done);
    ExecSnoc(INIT, es2, Enter(1, Forever));
    ExecSnoc(INIT, es3, Exit(0));
  }

  /** Such a loss: a signal arrives between a timeout and the end of that wait. */
  lemma TimedOutWaitDropsSignal() returns (es: seq<Event>)
    ensures SoleWaiter(es, 0)
    ensures var c := Exec(INIT, es); c.signals == 1 && c.delivered == 0 && !c.completed && c.threads == map[]
  {
    hide Exec;
    var es1 := [] + [Enter(0, Timed)];
    var es2 := es1 + [Timeout(0)];
    var es3 := es2 + [Done];
    es := es3 + [Exit(0)];
    ExecNil(INIT);
    ExecSnoc(INIT, [], Enter(0, Timed));
    ExecSnoc(INIT, es1, Timeout(0));
    ExecSnoc(INIT, es2, Done);
    ExecSnoc(INIT, es3, Exit(0));
  }
}
