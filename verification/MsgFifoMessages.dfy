/** The messages of src/msg_fifo.c when calls of `msg_push` and `msg_pop` overlap in any way. */
module MsgFifoMessages {
  import opened Common
  import opened Kernel
  import opened DataQueueModel
  import opened DataQueueFifo
  import opened MsgFifoModel

  type Text = seq<Byte>

  /**
   * The pool with the texts in its units. `sent`, `taken` and `inHand` are history: the messages committed, the
   * messages taken off the ready queue to be returned or dropped, and what each consumer took.
   */
  datatype Traffic = Traffic(
    pool: Pool, texts: seq<Text>,
    sent: seq<Text>, taken: seq<Text>, inHand: map<ThreadId, Text>)

  /** `Copy` is any part of the copy a producer makes into the unit it holds; what it leaves there is arbitrary. */
  datatype TrafficEvent = Pass(e: PoolEvent) | Copy(t: ThreadId, text: Text)

  /** The unit that a step takes off the ready queue. */
  function TakenUnit(m: Pool, e: PoolEvent): Option<Unit>
    requires WellFormed(m)
  {
    if e.TakeReady? || e.StartPop? || e.ResumePop? then Got(m.ready, PoolApply(m, e).ready) else None
  }

  function TextIn(texts: seq<Text>, u: Unit): Text {
    if u < |texts| then texts[u] else []
  }

  function TextsIn(texts: seq<Text>, units: seq<Unit>): (r: seq<Text>)
    ensures |r| == |units| && forall i :: 0 <= i < |units| ==> r[i] == TextIn(texts, units[i])
  {
    seq(|units|, i requires 0 <= i < |units| => TextIn(texts, units[i]))
  }

  function AfterPass(x: Traffic, e: PoolEvent): Traffic
    requires WellFormed(x.pool)
  {
    var moved := x.(pool := PoolApply(x.pool, e));
    if !PoolEnabled(x.pool, e) then x
    else if e.CommitReady? then moved.(sent := x.sent + [TextIn(x.texts, x.pool.phases[e.t].u)])
    else if e.CommitFree? then moved.(inHand := x.inHand - {e.t})
    else match TakenUnit(x.pool, e)
      case None => moved
      case Some(u) =>
        var text := TextIn(x.texts, u);
        var out := moved.(taken := x.taken + [text]);
        if e.TakeReady? then out else out.(inHand := x.inHand[e.t := text])
  }

  function TrafficApply(x: Traffic, e: TrafficEvent): Traffic
    requires WellFormed(x.pool)
  {
    match e
    case Pass(p) => AfterPass(x, p)
    case Copy(t, text) =>
      if t in x.pool.phases && x.pool.phases[t].Filling? && x.pool.phases[t].u < |x.texts|
      then x.(texts := x.texts[x.pool.phases[t].u := text]) else x
  }

  lemma PoolFollows(x: Traffic, e: TrafficEvent)
    requires WellFormed(x.pool)
    ensures TrafficApply(x, e).pool == if e.Pass? then PoolApply(x.pool, e.e) else x.pool
    ensures WellFormed(TrafficApply(x, e).pool) && |TrafficApply(x, e).texts| == |x.texts|
  {
    if e.Pass? {
      PoolApplyWellFormed(x.pool, e.e);
    }
  }

  function TrafficExec(x: Traffic, es: seq<TrafficEvent>): (r: Traffic)
    requires WellFormed(x.pool)
    ensures WellFormed(r.pool)
  {
    if es == [] then x else
    var before := TrafficExec(x, es[..|es| - 1]);
    PoolFollows(before, es[|es| - 1]);
    TrafficApply(before, es[|es| - 1])
  }

  /** A consumer holds its message, unchanged, in the unit it took. */
  predicate Keeps(x: Traffic, t: ThreadId) {
    t in x.pool.phases && x.pool.phases[t].Draining? ==>
      t in x.inHand && x.inHand[t] == TextIn(x.texts, x.pool.phases[t].u) && x.inHand[t] in x.taken
  }

  /** The ready units hold the messages sent and not yet taken, in order; consumers hold theirs. */
  ghost predicate Delivering(x: Traffic) {
    && x.sent == x.taken + TextsIn(x.texts, Contents(x.pool.ready))
    && forall t :: Keeps(x, t)
  }

  /** The commit appends the text to the messages on their way. */
  lemma CommitDelivers(x: Traffic, t: ThreadId, n: U16)
    requires Conserved(x.pool, n) && Delivering(x) && PoolEnabled(x.pool, CommitReady(t))
    requires IndicesTrusted(PoolApply(x.pool, CommitReady(t)), n)
    ensures Delivering(AfterPass(x, CommitReady(t)))
  {
    CommitReadyIsTrusted(x.pool, t, n);
    CommitReadyConserves(x.pool, t, n);
    hide Conserved, WellFormed, IndicesTrusted;
    var r, u := AfterPass(x, CommitReady(t)), x.pool.phases[t].u;
    assert Contents(r.pool.ready) == Contents(x.pool.ready) + [u];
    hide PoolApply, Contents;
    assert TextsIn(r.texts, Contents(r.pool.ready)) == TextsIn(x.texts, Contents(x.pool.ready)) + [TextIn(x.texts, u)];
    forall v
      ensures Keeps(r, v)
    {
      assert Keeps(x, v);
    }
  }

  /** A step that takes a unit off the ready queue takes the first one. */
  ghost predicate TakesFirst(m: Pool, e: PoolEvent)
    requires WellFormed(m)
  {
    match TakenUnit(m, e)
    case None =>
      && Contents(PoolApply(m, e).ready) == Contents(m.ready)
      && (forall v :: v in PoolApply(m, e).phases ==> v in m.phases && PoolApply(m, e).phases[v] == m.phases[v])
    case Some(u) =>
      && Contents(m.ready) != [] && u == Contents(m.ready)[0]
      && Contents(PoolApply(m, e).ready) == Contents(m.ready)[1..]
      && PoolApply(m, e).phases == m.phases[e.t := if e.TakeReady? then Filling(u) else Draining(u)]
  }

  lemma TakeReadyPop(m: Pool, t: ThreadId, n: U16)
    requires Conserved(m, n) && PoolEnabled(m, TakeReady(t))
    ensures TakesFirst(m, TakeReady(t))
  {
    assert t in m.phases.Keys;
    PopOutcome(m.ready, t, NoWait);
    hide PopPass, Partition, ListsValid, IndicesValid, SlotsLive, Contents, Fifo, Overrun;
  }

  lemma StartPopPop(m: Pool, t: ThreadId, wait: Wait, n: U16)
    requires Conserved(m, n) && PoolEnabled(m, StartPop(t, wait))
    ensures TakesFirst(m, StartPop(t, wait))
  {
    PopOutcome(m.ready, t, wait);
    hide PopPass, Partition, ListsValid, IndicesValid, SlotsLive, Contents, Fifo, Overrun;
  }

  lemma ResumePopPop(m: Pool, t: ThreadId, n: U16)
    requires Conserved(m, n) && PoolEnabled(m, ResumePop(t))
    ensures TakesFirst(m, ResumePop(t))
  {
    hide PopPass, Partition, ListsValid, IndicesValid, SlotsLive, DupFree, OnlyPoppers;
    var c, left := m.ready.callers[t], Leave(m.ready, t);
    LeaveKeepsFifo(m.ready, t);
    hide Contents, Overrun;
    if c.error == EOK {
      PopOutcome(left, t, c.wait);
      hide Fifo, Conserved;
    } else {
      hide Fifo, Conserved;
    }
  }

  lemma ReadyPop(m: Pool, e: PoolEvent, n: U16)
    requires Conserved(m, n) && PoolEnabled(m, e) && (e.TakeReady? || e.StartPop? || e.ResumePop?)
    ensures TakesFirst(m, e)
  {
    hide Conserved, TakesFirst, PoolEnabled, WellFormed;
    match e
    case TakeReady(t) => TakeReadyPop(m, t, n);
    case StartPop(t, wait) => StartPopPop(m, t, wait, n);
    case ResumePop(t) => ResumePopPop(m, t, n);
  }

  lemma FirstText(texts: seq<Text>, units: seq<Unit>)
    requires units != []
    ensures TextsIn(texts, units) == [TextIn(texts, units[0])] + TextsIn(texts, units[1..])
  {
  }

  /** A take moves the first message from the ready queue to the taken ones. */
  lemma TakeMoves(x: Traffic, e: PoolEvent, n: U16)
    requires Conserved(x.pool, n) && x.sent == x.taken + TextsIn(x.texts, Contents(x.pool.ready))
    requires PoolEnabled(x.pool, e) && (e.TakeReady? || e.StartPop? || e.ResumePop?)
    ensures var r := AfterPass(x, e);
      && r.sent == r.taken + TextsIn(r.texts, Contents(r.pool.ready))
      && x.taken <= r.taken && r.texts == x.texts
  {
    ReadyPop(x.pool, e, n);
    var queued := Contents(x.pool.ready);
    if TakenUnit(x.pool, e).Some? {
      FirstText(x.texts, queued);
      MoveFirst(x.taken, TextIn(x.texts, queued[0]), TextsIn(x.texts, queued[1..]));
    }
    hide Conserved, PoolApply, Contents, TakenUnit, TextIn, TextsIn, WellFormed, PoolEnabled;
  }

  lemma MoveFirst(taken: seq<Text>, first: Text, rest: seq<Text>)
    ensures taken + ([first] + rest) == (taken + [first]) + rest
  {
  }

  lemma TakeKeeps(x: Traffic, e: PoolEvent, n: U16, v: ThreadId)
    requires Conserved(x.pool, n) && Keeps(x, v)
    requires PoolEnabled(x.pool, e) && (e.TakeReady? || e.StartPop? || e.ResumePop?)
    ensures Keeps(AfterPass(x, e), v)
  {
    ReadyPop(x.pool, e, n);
    hide Conserved, PoolApply, Contents, TakenUnit, TextIn, PoolEnabled, WellFormed;
  }

  lemma TakeDelivers(x: Traffic, e: PoolEvent, n: U16)
    requires Conserved(x.pool, n) && Delivering(x)
    requires PoolEnabled(x.pool, e) && (e.TakeReady? || e.StartPop? || e.ResumePop?)
    ensures Delivering(AfterPass(x, e))
  {
    assert WellFormed(x.pool);
    hide Conserved, WellFormed, PoolApply, AfterPass, PoolEnabled, TextsIn, Contents, Keeps;
    TakeMoves(x, e, n);
    forall v
      ensures Keeps(AfterPass(x, e), v)
    {
      assert Keeps(x, v);
      TakeKeeps(x, e, n, v);
    }
  }

  /** The remaining steps leave the ready units alone. */
  lemma OtherPass(m: Pool, e: PoolEvent)
    requires WellFormed(m) && (e.TakeFree? || e.CommitFree? || e.PopTimeout?)
    ensures Contents(PoolApply(m, e).ready) == Contents(m.ready)
    ensures forall v :: v in PoolApply(m, e).phases && PoolApply(m, e).phases[v].Draining? ==>
      v in m.phases && PoolApply(m, e).phases[v] == m.phases[v] && !(e.CommitFree? && PoolEnabled(m, e) && v == e.t)
  {
    hide PopPass, PushPass, ListsValid, IndicesValid;
  }

  lemma OtherDelivers(x: Traffic, e: PoolEvent)
    requires WellFormed(x.pool) && Delivering(x) && (e.TakeFree? || e.CommitFree? || e.PopTimeout?)
    ensures Delivering(AfterPass(x, e))
  {
    OtherPass(x.pool, e);
    hide PoolApply, Contents, WellFormed;
    var r := AfterPass(x, e);
    forall v
      ensures Keeps(r, v)
    {
      assert Keeps(x, v);
    }
  }

  lemma CopyKeepsTexts(texts: seq<Text>, u: Unit, text: Text, units: seq<Unit>)
    requires u < |texts| && u !in units
    ensures TextsIn(texts[u := text], units) == TextsIn(texts, units)
  {
    forall i | 0 <= i < |units|
      ensures TextIn(texts[u := text], units[i]) == TextIn(texts, units[i])
    {
      assert units[i] in units;
    }
  }

  lemma CopyKeeps(x: Traffic, t: ThreadId, text: Text, v: ThreadId)
    requires WellFormed(x.pool) && Exclusive(x.pool.phases) && Keeps(x, v)
    ensures Keeps(TrafficApply(x, Copy(t, text)), v)
  {
    hide WellFormed;
    assert v != t && Holds(x.pool.phases, v) && Holds(x.pool.phases, t) ==> x.pool.phases[v].u != x.pool.phases[t].u;
  }

  /** A producer's copy touches neither a ready message nor one in another thread's hands. */
  lemma CopyDelivers(x: Traffic, t: ThreadId, text: Text, n: U16)
    requires Conserved(x.pool, n) && Delivering(x)
    ensures Delivering(TrafficApply(x, Copy(t, text)))
  {
    PartitionCount(Contents(x.pool.free), Contents(x.pool.ready), x.pool.phases, n);
    assert WellFormed(x.pool) && Exclusive(x.pool.phases);
    hide Conserved, Contents, WellFormed, Exclusive, TextsIn, Keeps;
    if t in x.pool.phases && x.pool.phases[t].Filling? && x.pool.phases[t].u < |x.texts| {
      assert Holds(x.pool.phases, t);
      CopyKeepsTexts(x.texts, x.pool.phases[t].u, text, Contents(x.pool.ready));
    }
    forall v
      ensures Keeps(TrafficApply(x, Copy(t, text)), v)
    {
      assert Keeps(x, v);
      CopyKeeps(x, t, text, v);
    }
  }

  lemma StepDelivers(x: Traffic, e: TrafficEvent, n: U16)
    requires Conserved(x.pool, n) && Delivering(x) && IndicesTrusted(TrafficApply(x, e).pool, n)
    ensures Delivering(TrafficApply(x, e))
  {
    PoolFollows(x, e);
    hide Conserved, Delivering, PoolApply, IndicesTrusted;
    match e
    case Copy(t, text) => CopyDelivers(x, t, text, n);
    case Pass(p) =>
      if PoolEnabled(x.pool, p) {
        match p
        case CommitReady(t) => CommitDelivers(x, t, n);
        case TakeReady(_) => TakeDelivers(x, p, n);
        case StartPop(_, _) => TakeDelivers(x, p, n);
        case ResumePop(_) => TakeDelivers(x, p, n);
        case _ => OtherDelivers(x, p);
      }
  }

  function NoTraffic(n: U16, readySlots: seq<Unit>, texts: seq<Text>): Traffic {
    Traffic(InitialPool(n, readySlots), texts, [], [], map[])
  }

  lemma StepKeepsTraffic(x: Traffic, e: TrafficEvent, n: U16)
    requires WellFormed(x.pool) && (IndicesTrusted(x.pool, n) ==> Conserved(x.pool, n) && Delivering(x))
    ensures var r := TrafficApply(x, e);
      IndicesTrusted(r.pool, n) ==> Conserved(r.pool, n) && Delivering(r)
  {
    PoolFollows(x, e);
    if IndicesTrusted(TrafficApply(x, e).pool, n) {
      if e.Pass? {
        PoolStepGrows(x.pool, e.e);
      }
      hide Conserved, Delivering, PoolApply;
      assert IndicesTrusted(x.pool, n);
      hide TrafficApply, IndicesTrusted;
      StepDelivers(x, e, n);
      if e.Pass? {
        StepConserves(x.pool, e.e, n);
      }
    }
  }

  lemma NothingDelivered(n: U16, readySlots: seq<Unit>, texts: seq<Text>)
    requires |readySlots| == n
    ensures var x := NoTraffic(n, readySlots, texts);
      WellFormed(x.pool) && Conserved(x.pool, n) && Delivering(x)
  {
    InitialConserved(n, readySlots);
    assert Contents(NoTraffic(n, readySlots, texts).pool.ready) == [];
  }

  lemma {:induction false} DeliveringOverRuns(n: U16, readySlots: seq<Unit>, texts: seq<Text>, es: seq<TrafficEvent>)
    requires |readySlots| == n
    ensures WellFormed(NoTraffic(n, readySlots, texts).pool)
    ensures var x := TrafficExec(NoTraffic(n, readySlots, texts), es);
      IndicesTrusted(x.pool, n) ==> Conserved(x.pool, n) && Delivering(x)
  {
    NothingDelivered(n, readySlots, texts);
    hide Conserved, Delivering, IndicesTrusted, NoTraffic, TrafficApply, WellFormed;
    if es != [] {
      DeliveringOverRuns(n, readySlots, texts, es[..|es| - 1]);
      StepKeepsTraffic(TrafficExec(NoTraffic(n, readySlots, texts), es[..|es| - 1]), es[|es| - 1], n);
    }
  }

  /**
   * However the calls overlap and whatever partial copies are seen in between: the messages leave the ready queue
   * in the order of their commits, each one once, at most `n` of them wait, and what a consumer copies out is the
   * message it took, as the producer left it.
   */
  lemma OverlapKeepsMessages(n: U16, readySlots: seq<Unit>, texts: seq<Text>, es: seq<TrafficEvent>)
    requires |readySlots| == n
    ensures WellFormed(NoTraffic(n, readySlots, texts).pool)
    ensures var x := TrafficExec(NoTraffic(n, readySlots, texts), es);
      IndicesTrusted(x.pool, n) ==>
        && x.taken <= x.sent && |x.sent| - |x.taken| <= n
        && x.sent[|x.taken|..] == TextsIn(x.texts, Contents(x.pool.ready))
        && forall t :: t in x.pool.phases && x.pool.phases[t].Draining? ==>
             t in x.inHand && TextIn(x.texts, x.pool.phases[t].u) == x.inHand[t] && x.inHand[t] in x.taken
  {
    DeliveringOverRuns(n, readySlots, texts, es);
    var x := TrafficExec(NoTraffic(n, readySlots, texts), es);
    hide NoTraffic, TrafficExec, Contents, Conserved, Delivering, IndicesTrusted;
    if IndicesTrusted(x.pool, n) {
      DeliveringMeans(x, n);
    }
  }

  lemma DeliveringMeans(x: Traffic, n: U16)
    requires Conserved(x.pool, n) && Delivering(x)
    ensures x.taken <= x.sent && |x.sent| - |x.taken| <= n
    ensures x.sent[|x.taken|..] == TextsIn(x.texts, Contents(x.pool.ready))
    ensures forall t :: t in x.pool.phases && x.pool.phases[t].Draining? ==>
      t in x.inHand && TextIn(x.texts, x.pool.phases[t].u) == x.inHand[t] && x.inHand[t] in x.taken
  {
    PartitionCount(Contents(x.pool.free), Contents(x.pool.ready), x.pool.phases, n);
    hide Conserved, Contents, TextIn;
    var waiting := TextsIn(x.texts, Contents(x.pool.ready));
    assert (x.taken + waiting)[|x.taken|..] == waiting;
    forall t | t in x.pool.phases && x.pool.phases[t].Draining?
      ensures t in x.inHand && TextIn(x.texts, x.pool.phases[t].u) == x.inHand[t] && x.inHand[t] in x.taken
    {
      assert Keeps(x, t);
    }
  }
}
