/** The DMA transmit hand-shake of rt_ext/serial.c between writing threads and the done interrupt. */
module DmaTxModel {
  import opened Common
  import opened Kernel
  import opened DataQueueModel
  import Q = DataQueueModel
  import opened DataQueueWakeups
  import opened DataQueueFifo
  import opened DataQueueLaws

  /** A caller's buffer: its address and length. */
  type Buffer = nat

  const TX_QUEUE_SIZE: U16 := 8
  const TX_QUEUE_LWM: U16 := 4

  /** A writer between its push and its check of `activated`, or between the check and `dma_transmit`. */
  datatype TxPhase = Pushed(b: Buffer) | Starting(b: Buffer)

  /** `started` and `completed` are history: the buffers given to the channel and to `tx_complete`. */
  datatype Tx = Tx(
    q: Queue<Buffer>, activated: bool, phases: map<ThreadId, TxPhase>,
    inFlight: Option<Buffer>, started: seq<Buffer>, completed: seq<Buffer>)

  datatype TxEvent =
    | WriteBegin(t: ThreadId, b: Buffer)
    | WriteResume(t: ThreadId)
    | Check(t: ThreadId)
    | Start(t: ThreadId)
    | DmaDone

  function TxInit(slots: seq<Buffer>): Tx {
    Tx(Q.Init(TX_QUEUE_SIZE, TX_QUEUE_LWM, slots), false, map[], None, [], [])
  }

  predicate TxEnabled(s: Tx, e: TxEvent) {
    match e
    case WriteBegin(t, _) => t !in s.phases && t !in s.q.callers
    case WriteResume(t) => t in s.q.callers && s.q.callers[t].PushReady?
    case Check(t) => t in s.phases && s.phases[t].Pushed?
    case Start(t) => t in s.phases && s.phases[t].Starting?
    case DmaDone => s.inFlight.Some?
  }

  /** The push returned if the queue grew; otherwise the thread sleeps or failed. */
  function AfterPush(s: Tx, t: ThreadId, q: Queue<Buffer>): Tx {
    s.(q := q,
       phases := if |q.pushed| > |s.q.pushed| then s.phases[t := Pushed(q.pushed[|q.pushed| - 1])] else s.phases)
  }

  /** The interrupt pops without waiting, so no thread identity is involved. */
  function AfterPop(q: Queue<Buffer>): Queue<Buffer>
    requires Q.Valid(q)
  {
    PopPass(q, 0, NoWait)
  }

  function TxApply(s: Tx, e: TxEvent): Tx
    requires Q.Valid(s.q)
  {
    if !TxEnabled(s, e) then s else
    match e
    case WriteBegin(t, b) => AfterPush(s, t, Q.Apply(s.q, PushBegin(t, b, Forever)))
    case WriteResume(t) => AfterPush(s, t, Q.Apply(s.q, PushRecheck(t)))
    case Check(t) =>
      if s.activated then s.(phases := s.phases - {t})
      else s.(activated := true, phases := s.phases[t := Starting(s.phases[t].b)])
    case Start(t) =>
      var b := s.phases[t].b;
      s.(phases := s.phases - {t}, inFlight := Some(b), started := s.started + [b])
    case DmaDone =>
      PopKeepsValid(s.q);
      var q := AfterPop(s.q);
      var reported := s.completed + q.popped[|s.q.popped|..];
      match Peek(q)
      case Some(next) =>
        s.(q := q, activated := true, inFlight := Some(next), started := s.started + [next], completed := reported)
      case None => s.(q := q, activated := false, inFlight := None, completed := reported)
  }

  lemma PopKeepsValid(q: Queue<Buffer>)
    requires Q.Valid(q)
    ensures Q.Valid(AfterPop(q)) && |q.popped| <= |AfterPop(q).popped|
  {
    PopPassValid(q, 0, NoWait);
  }

  lemma TxApplyValid(s: Tx, e: TxEvent)
    requires Q.Valid(s.q)
    ensures Q.Valid(TxApply(s, e).q)
  {
    if TxEnabled(s, e) {
      match e
      case WriteBegin(t, b) => ApplyValid(s.q, PushBegin(t, b, Forever));
      case WriteResume(t) => ApplyValid(s.q, PushRecheck(t));
      case Check(_) =>
      case Start(_) =>
      case DmaDone => PopKeepsValid(s.q);
    }
  }

  function TxExec(s: Tx, es: seq<TxEvent>): (r: Tx)
    requires Q.Valid(s.q)
    ensures Q.Valid(r.q)
  {
    if es == [] then s else
    var before := TxExec(s, es[..|es| - 1]);
    TxApplyValid(before, es[|es| - 1]);
    TxApply(before, es[|es| - 1])
  }

  // What a transmission should be

  /** Buffers are started in push order, each one once, and each finished one is reported. */
  ghost predicate InOrder(s: Tx) {
    && s.completed == s.q.popped
    && s.started == s.q.popped + (if s.inFlight.Some? then [s.inFlight.value] else [])
    && s.started <= s.q.pushed
  }

  /** A writer starts a buffer that is not the head of the queue. */
  predicate WrongStart(s: Tx, e: TxEvent)
    requires IndicesValid(s.q)
  {
    e.Start? && TxEnabled(s, e) && Peek(s.q) != Some(s.phases[e.t].b)
  }

  /** A push finds all slots in use and does not notice, because `put_index` has wrapped. */
  ghost predicate Overflows(s: Tx, e: TxEvent) {
    && TxEnabled(s, e)
    && (e.WriteBegin? || (e.WriteResume? && s.q.callers[e.t].error == EOK))
    && Stored(s.q) == s.q.size && s.q.putIndex < s.q.getIndex
  }

  // A single writing thread

  /** The check comes so late that the interrupt has already sent everything and gone idle. */
  predicate LateCheck(s: Tx, e: TxEvent) {
    e.Check? && TxEnabled(s, e) && !s.activated && Empty(s.q)
  }

  ghost predicate OnlyPushing(q: Queue<Buffer>, w: ThreadId) {
    forall t :: t in q.callers ==> t == w && (q.callers[t].PushAsleep? || q.callers[t].PushReady?)
  }

  /** The queue part of the hand-shake. */
  ghost predicate TxQueue(q: Queue<Buffer>, w: ThreadId) {
    && Fifo(q) && q.size == TX_QUEUE_SIZE && q.lwm == TX_QUEUE_LWM && Awake(q) && OnlyPushing(q, w)
  }

  ghost predicate HandShake(s: Tx, w: ThreadId) {
    && TxQueue(s.q, w) && s.phases.Keys <= {w} && s.phases.Keys !! s.q.callers.Keys
    && s.completed == s.q.popped
    && s.started == s.q.popped + (if s.inFlight.Some? then [s.inFlight.value] else [])
    && (w in s.phases && s.phases[w].Pushed? ==> s.q.pushed != [] && s.phases[w].b == s.q.pushed[|s.q.pushed| - 1])
    && match s.inFlight
       case Some(x) =>
         s.activated && Contents(s.q) != [] && x == Contents(s.q)[0] && (w in s.phases ==> s.phases[w].Pushed?)
       case None =>
         if s.activated then
           w in s.phases && s.phases[w].Starting? && Contents(s.q) == [s.phases[w].b]
         else
           && (w in s.phases ==> s.phases[w].Pushed?)
           && (Contents(s.q) != [] ==> w in s.phases && Contents(s.q) == [s.phases[w].b])
  }

  lemma HandShakeInOrder(s: Tx, w: ThreadId)
    requires HandShake(s, w)
    ensures InOrder(s)
  {
    assert s.q.pushed == s.q.popped + Contents(s.q);
  }

  /** What one push pass of the sole writer does to the queue. */
  lemma PushOfWriter(q: Queue<Buffer>, w: ThreadId, b: Buffer)
    requires Fifo(q) && q.size == TX_QUEUE_SIZE && w !in q.callers && OnlyPushing(q, w)
    requires !Overrun(PushPass(q, w, b, Forever))
    ensures var r := PushPass(q, w, b, Forever);
      && Fifo(r) && r.size == q.size && r.lwm == q.lwm && OnlyPushing(r, w) && r.popped == q.popped
      && (r.pushed == q.pushed ==> Contents(r) == Contents(q) && w in r.callers && |Contents(q)| >= TX_QUEUE_SIZE)
      && (r.pushed != q.pushed ==>
           r.pushed == q.pushed + [b] && Contents(r) == Contents(q) + [b] && r.callers == q.callers)
  {
    hide SlotsLive, DupFree;
    HeadsSleep(q);
    FullTestExact(q);
    PushPassKeepsFifo(q, w, b, Forever);
  }

  /** What the pop of the interrupt does to the queue. */
  lemma PopTakesHead(q: Queue<Buffer>)
    requires Fifo(q) && Contents(q) != []
    ensures var r := AfterPop(q);
      && Fifo(r) && r.size == q.size && r.lwm == q.lwm && r.pushed == q.pushed
      && r.popped == q.popped + [Contents(q)[0]] && Contents(r) == Contents(q)[1..]
      && Peek(r) == if Contents(r) == [] then None else Some(Contents(r)[0])
  {
    hide SlotsLive, DupFree;
    HeadsSleep(q);
    EmptyTestExact(q);
    PopPassKeepsFifo(q, 0, NoWait);
    TakeKeepsFifo(q);
    PeekIsHead(AfterPop(q));
  }

  lemma PopOfInterrupt(q: Queue<Buffer>, w: ThreadId)
    requires Fifo(q) && OnlyPushing(q, w) && Contents(q) != []
    ensures OnlyPushing(AfterPop(q), w) && AfterPop(q).callers.Keys == q.callers.Keys
  {
    hide SlotsLive, DupFree, IndicesValid;
    HeadsSleep(q);
  }

  lemma PeekIsHead(q: Queue<Buffer>)
    requires Fifo(q)
    ensures Peek(q) == if Contents(q) == [] then None else Some(Contents(q)[0])
  {
    EmptyTestExact(q);
    if Contents(q) != [] {
      TakeKeepsFifo(q);
    }
  }

  lemma SleepingKeepsHandShake(s: Tx, w: ThreadId, r: Queue<Buffer>)
    requires HandShake(s, w) && w !in s.phases
    requires TxQueue(r, w) && r.pushed == s.q.pushed && r.popped == s.q.popped
    ensures HandShake(AfterPush(s, w, r), w)
  {
    hide Fifo, Awake;
    assert Contents(r) == Contents(s.q);
    forall t | t in r.callers.Keys
      ensures t !in s.phases.Keys
    {
      assert t == w;
    }
  }

  lemma StoringKeepsHandShake(s: Tx, w: ThreadId, r: Queue<Buffer>, b: Buffer)
    requires HandShake(s, w) && w !in s.phases
    requires TxQueue(r, w) && r.pushed == s.q.pushed + [b] && r.popped == s.q.popped && r.callers == map[]
    ensures HandShake(AfterPush(s, w, r), w)
  {
    assert Contents(r) == Contents(s.q) + [b];
    hide Fifo, Awake, Contents, OnlyPushing;
    var x := AfterPush(s, w, r);
    assert x.phases[w] == Pushed(b);
    assert s.phases.Keys == {};
    if s.inFlight.Some? {
      assert Contents(r)[0] == Contents(s.q)[0];
    }
  }

  lemma WriteKeepsHandShake(s: Tx, w: ThreadId, q0: Queue<Buffer>, b: Buffer)
    requires HandShake(s, w) && w !in s.phases && w !in q0.callers
    requires q0 == s.q || q0 == Leave(s.q, w)
    requires Fifo(q0) && !Overrun(PushPass(q0, w, b, Forever)) && Awake(PushPass(q0, w, b, Forever))
    ensures HandShake(AfterPush(s, w, PushPass(q0, w, b, Forever)), w)
  {
    PushOfWriter(q0, w, b);
    assert s.q.size == TX_QUEUE_SIZE && s.q.lwm == TX_QUEUE_LWM;
    hide Fifo, Awake, Overrun, Contents, PushPass, HandShake;
    var r := PushPass(q0, w, b, Forever);
    if r.pushed == s.q.pushed {
      SleepingKeepsHandShake(s, w, r);
    } else {
      assert r.callers.Keys == {};
      StoringKeepsHandShake(s, w, r, b);
    }
  }

  lemma BeginKeepsHandShake(s: Tx, w: ThreadId, b: Buffer)
    requires HandShake(s, w) && w !in s.phases && w !in s.q.callers
    requires !Overrun(TxApply(s, WriteBegin(w, b)).q)
    ensures HandShake(TxApply(s, WriteBegin(w, b)), w)
  {
    hide SlotsLive, DupFree, ListsValid, IndicesValid, PushPass, NoLostPopper, NoLostPusher;
    StepKeepsAwake(s.q, PushBegin(w, b, Forever));
    WriteKeepsHandShake(s, w, s.q, b);
  }

  lemma ResumeKeepsHandShake(s: Tx, w: ThreadId)
    requires HandShake(s, w) && w in s.q.callers && s.q.callers[w].PushReady? && s.q.callers[w].wait == Forever
    requires !Overrun(TxApply(s, WriteResume(w)).q)
    ensures HandShake(TxApply(s, WriteResume(w)), w)
  {
    var c := s.q.callers[w];
    assert w in s.q.callers.Keys;
    LeaveValid(s.q, w);
    StepKeepsAwake(s.q, PushRecheck(w));
    hide SlotsLive, DupFree, ListsValid, IndicesValid, PushPass, NoLostPopper, NoLostPusher;
    if c.error == EOK {
      WriteKeepsHandShake(s, w, Leave(s.q, w), c.item);
    }
  }

  lemma CheckAndStartKeepHandShake(s: Tx, w: ThreadId)
    requires HandShake(s, w)
    ensures !LateCheck(s, Check(w)) ==> HandShake(TxApply(s, Check(w)), w)
    ensures HandShake(TxApply(s, Start(w)), w)
  {
    EmptyTestExact(s.q);
    hide SlotsLive, DupFree, ListsValid, IndicesValid, NoLostPopper, NoLostPusher;
  }

  lemma DoneKeepsHandShake(s: Tx, w: ThreadId)
    requires HandShake(s, w)
    ensures HandShake(TxApply(s, DmaDone), w)
  {
    hide SlotsLive, DupFree, ListsValid, IndicesValid, NoLostPopper, NoLostPusher, AfterPop, Peek;
    if s.inFlight.Some? {
      PopTakesHead(s.q);
      PopOfInterrupt(s.q, w);
      PopKeepsAwake(s.q);
      assert s.phases.Keys !! AfterPop(s.q).callers.Keys;
    }
  }

  lemma PopKeepsAwake(q: Queue<Buffer>)
    requires Awake(q)
    ensures Awake(AfterPop(q))
  {
    PopPassValid(q, 0, NoWait);
    PopPassWakes(q, 0, NoWait);
  }

  /** Writers always wait for ever, so no timeout or reset is involved. */
  ghost predicate WaitsForever(q: Queue<Buffer>) {
    forall t :: t in q.callers ==> q.callers[t].wait == Forever
  }

  lemma StepKeepsWaits(s: Tx, e: TxEvent)
    requires Q.Valid(s.q) && WaitsForever(s.q)
    ensures WaitsForever(TxApply(s, e).q)
  {
    hide IndicesValid, DupFree;
    HeadsSleep(s.q);
  }

  lemma StepKeepsHandShake(s: Tx, e: TxEvent, w: ThreadId)
    requires HandShake(s, w) && WaitsForever(s.q) && (e.DmaDone? || e.t == w)
    requires !Overrun(TxApply(s, e).q) && !LateCheck(s, e)
    ensures HandShake(TxApply(s, e), w)
  {
    hide Fifo, Awake, Contents, PushPass, PopPass, OnlyPushing;
    if TxEnabled(s, e) {
      match e
      case WriteBegin(t, b) => BeginKeepsHandShake(s, w, b);
      case WriteResume(t) => ResumeKeepsHandShake(s, w);
      case Check(t) => CheckAndStartKeepHandShake(s, w);
      case Start(t) => CheckAndStartKeepHandShake(s, w);
      case DmaDone => DoneKeepsHandShake(s, w);
    }
  }

  lemma InitHandShake(slots: seq<Buffer>, w: ThreadId)
    requires |slots| == TX_QUEUE_SIZE
    ensures Q.Valid(TxInit(slots).q) && HandShake(TxInit(slots), w) && WaitsForever(TxInit(slots).q)
  {
    var q := TxInit(slots).q;
    assert Contents(q) == [];
  }

  /** One writer, whose checks are in time and whose pushes do not overflow the queue. */
  ghost predicate Timely(s0: Tx, es: seq<TxEvent>, w: ThreadId)
    requires Q.Valid(s0.q)
  {
    es != [] ==>
      var before, e := es[..|es| - 1], es[|es| - 1];
      var s := TxExec(s0, before);
      Timely(s0, before, w) && (e.DmaDone? || e.t == w) && !LateCheck(s, e) && !Overflows(s, e)
  }

  lemma {:induction false} HandShakeOverRun(slots: seq<Buffer>, es: seq<TxEvent>, w: ThreadId)
    requires |slots| == TX_QUEUE_SIZE
    requires Q.Valid(TxInit(slots).q) && Timely(TxInit(slots), es, w)
    ensures HandShake(TxExec(TxInit(slots), es), w) && WaitsForever(TxExec(TxInit(slots), es).q)
  {
    InitHandShake(slots, w);
    if es != [] {
      var before, e := es[..|es| - 1], es[|es| - 1];
      HandShakeOverRun(slots, before, w);
      var s := TxExec(TxInit(slots), before);
      OverrunsExactly(s, e);
      hide HandShake, TxApply, WaitsForever, Overrun, Overflows, LateCheck, TxInit;
      StepKeepsWaits(s, e);
      StepKeepsHandShake(s, e, w);
    }
  }

  // Any number of writing threads

  predicate Starter(s: Tx, t: ThreadId) {
    t in s.phases && s.phases[t].Starting?
  }

  predicate BeforeCheck(s: Tx, t: ThreadId) {
    t in s.phases && s.phases[t].Pushed?
  }

  /** The channel has at most one user, and a queue that is not empty has somebody to start it. */
  ghost predicate Channel(s: Tx) {
    && s.q.size == TX_QUEUE_SIZE && s.q.lwm == TX_QUEUE_LWM && Awake(s.q)
    && (forall t, u :: Starter(s, t) && Starter(s, u) ==> t == u)
    && (forall t :: Starter(s, t) ==> s.activated && s.inFlight.None?)
    && (s.inFlight.Some? ==> s.activated)
    && (s.activated ==> s.inFlight.Some? || exists t :: Starter(s, t))
    && (!Empty(s.q) ==> s.activated || exists t :: BeforeCheck(s, t))
  }

  lemma PushKeepsChannel(s: Tx, t: ThreadId, r: Queue<Buffer>)
    requires Channel(s) && t !in s.phases && Awake(r) && r.size == s.q.size && r.lwm == s.q.lwm
    requires |r.pushed| > |s.q.pushed| || (Empty(r) <==> Empty(s.q))
    ensures Channel(AfterPush(s, t, r))
  {
    hide Awake;
    var x := AfterPush(s, t, r);
    forall u | u != t
      ensures Starter(x, u) <==> Starter(s, u)
      ensures BeforeCheck(x, u) <==> BeforeCheck(s, u)
    {
    }
    assert !Starter(s, t) && !BeforeCheck(s, t) && !Starter(x, t);
    assert |r.pushed| > |s.q.pushed| ==> BeforeCheck(x, t);
  }

  lemma PushEffect(q: Queue<Buffer>, t: ThreadId, e: Event<Buffer>)
    requires Q.Valid(q) && Enabled(q, e) && (e.PushBegin? || e.PushRecheck?)
    ensures var r := Q.Apply(q, e);
      && r.size == q.size && r.lwm == q.lwm
      && (|r.pushed| > |q.pushed| || (Empty(r) <==> Empty(q)))
  {
    hide ListsValid, IndicesValid;
  }

  lemma CheckKeepsChannel(s: Tx, t: ThreadId)
    requires Channel(s)
    ensures Channel(TxApply(s, Check(t)))
  {
    hide NoLostPopper, NoLostPusher, ListsValid, IndicesValid;
    if TxEnabled(s, Check(t)) {
      var x := TxApply(s, Check(t));
      forall u | u != t
        ensures Starter(x, u) <==> Starter(s, u)
      {
      }
      assert !s.activated ==> Starter(x, t);
    }
  }

  lemma StartKeepsChannel(s: Tx, t: ThreadId)
    requires Channel(s)
    ensures Channel(TxApply(s, Start(t)))
  {
    hide NoLostPopper, NoLostPusher, ListsValid, IndicesValid;
    if TxEnabled(s, Start(t)) {
      assert Starter(s, t);
      var x := TxApply(s, Start(t));
      forall u
        ensures !Starter(x, u)
      {
        assert Starter(x, u) ==> Starter(s, u);
      }
    }
  }

  lemma DoneKeepsChannel(s: Tx)
    requires Channel(s)
    ensures Channel(TxApply(s, DmaDone))
  {
    hide NoLostPopper, NoLostPusher;
    if s.inFlight.Some? {
      PopKeepsAwake(s.q);
      var x := TxApply(s, DmaDone);
      forall u
        ensures !Starter(x, u)
      {
        assert !Starter(s, u);
      }
    }
  }

  lemma StepKeepsChannel(s: Tx, e: TxEvent)
    requires Channel(s) && WritersApart(s)
    ensures Channel(TxApply(s, e))
  {
    hide NoLostPopper, NoLostPusher, ListsValid, IndicesValid, PushPass, PopPass, Starter, BeforeCheck;
    if TxEnabled(s, e) {
      match e
      case WriteBegin(t, b) =>
        StepKeepsAwake(s.q, PushBegin(t, b, Forever));
        PushEffect(s.q, t, PushBegin(t, b, Forever));
        PushKeepsChannel(s, t, Q.Apply(s.q, PushBegin(t, b, Forever)));
      case WriteResume(t) =>
        StepKeepsAwake(s.q, PushRecheck(t));
        PushEffect(s.q, t, PushRecheck(t));
        PushKeepsChannel(s, t, Q.Apply(s.q, PushRecheck(t)));
      case Check(t) => CheckKeepsChannel(s, t);
      case Start(t) => StartKeepsChannel(s, t);
      case DmaDone => DoneKeepsChannel(s);
    }
  }

  /** A thread is not inside push and past it at once. */
  ghost predicate WritersApart(s: Tx) {
    forall t :: t in s.q.callers ==> t !in s.phases
  }

  lemma StepKeepsApart(s: Tx, e: TxEvent)
    requires Q.Valid(s.q) && WritersApart(s)
    ensures WritersApart(TxApply(s, e))
  {
    hide IndicesValid;
    HeadsSleep(s.q);
  }

  lemma {:induction false} ChannelOverRun(slots: seq<Buffer>, es: seq<TxEvent>)
    requires |slots| == TX_QUEUE_SIZE && Q.Valid(TxInit(slots).q)
    ensures Channel(TxExec(TxInit(slots), es)) && WritersApart(TxExec(TxInit(slots), es))
  {
    if es != [] {
      ChannelOverRun(slots, es[..|es| - 1]);
      hide Channel, TxApply;
      var s, e := TxExec(TxInit(slots), es[..|es| - 1]), es[|es| - 1];
      StepKeepsApart(s, e);
      StepKeepsChannel(s, e);
    }
  }

  /** Over every schedule of any number of writers, the channel is never started while it is busy. */
  lemma NeverStartedWhileBusy(slots: seq<Buffer>, es: seq<TxEvent>, t: ThreadId)
    requires |slots| == TX_QUEUE_SIZE
    ensures Q.Valid(TxInit(slots).q)
    ensures var s := TxExec(TxInit(slots), es);
      TxEnabled(s, Start(t)) ==> s.inFlight.None? && forall u :: TxEnabled(s, Start(u)) ==> u == t
  {
    InitHandShake(slots, 0);
    ChannelOverRun(slots, es);
    var s := TxExec(TxInit(slots), es);
    assert forall u :: TxEnabled(s, Start(u)) <==> Starter(s, u);
  }

  /**
   * Over every schedule of any number of writers, an inactive channel with no writer between its
   * push and its check has an empty queue, and writers sleep only while a transfer or an awake
   * writer will come to wake them.
   */
  lemma NoStall(slots: seq<Buffer>, es: seq<TxEvent>)
    requires |slots| == TX_QUEUE_SIZE
    ensures Q.Valid(TxInit(slots).q)
    ensures var s := TxExec(TxInit(slots), es);
      && (!s.activated && (forall t :: !BeforeCheck(s, t)) ==> Empty(s.q))
      && (s.q.pushList != [] && !Overrun(s.q) ==> s.inFlight.Some? || s.phases != map[] || WokenPushers(s.q) != {})
  {
    InitHandShake(slots, 0);
    ChannelOverRun(slots, es);
    var s := TxExec(TxInit(slots), es);
    if s.q.pushList != [] && !Overrun(s.q) && WokenPushers(s.q) == {} {
      EmptyTestExact(s.q);
      assert !Empty(s.q);
    }
  }

  // Single steps of a writer

  /**
   * A write queues its own buffer and goes on to its check, or sleeps with it if the queue is full; a
   * writer that slept tests again with the buffer it was given.
   */
  lemma WriteLaw(s: Tx, t: ThreadId, b: Buffer)
    requires Q.Valid(s.q) && !Overrun(s.q) && t !in s.phases && t !in s.q.callers
    ensures var r := TxApply(s, WriteBegin(t, b));
      && r == s.(q := r.q, phases := r.phases)
      && if Stored(s.q) == s.q.size && s.q.getIndex <= s.q.putIndex then
           r.phases == s.phases && SleepsInPush(s.q, r.q, t, b, Forever)
         else
           r.q.pushed == s.q.pushed + [b] && r.phases == s.phases[t := Pushed(b)] && ResumesFirstPopper(s.q, r.q)
  {
    PushLaw(s.q, t, b, Forever);
    hide PushPass, ListsValid, IndicesValid;
  }

  lemma ResumedWriteLaw(s: Tx, t: ThreadId)
    requires Q.Valid(s.q) && !Overrun(s.q) && t !in s.phases && t in s.q.callers && s.q.callers[t].PushReady?
    requires s.q.callers[t].error == EOK && s.q.callers[t].wait == Forever
    ensures Q.Valid(Leave(s.q, t))
    ensures TxApply(s, WriteResume(t)) == TxApply(s.(q := Leave(s.q, t)), WriteBegin(t, s.q.callers[t].item))
  {
    RecheckLaw(s.q, t);
    hide PushPass, ListsValid, IndicesValid;
  }

  /** After its check a writer either has claimed the idle channel for its own buffer, or has returned. */
  lemma CheckLaw(s: Tx, t: ThreadId)
    requires Q.Valid(s.q) && t in s.phases && s.phases[t].Pushed?
    ensures var r := TxApply(s, Check(t));
      && r.activated && r == s.(activated := true, phases := r.phases)
      && if s.activated then r.phases == s.phases - {t} else r.phases == s.phases[t := Starting(s.phases[t].b)]
  {
  }

  // Order with any number of writing threads

  lemma PushOverrunsExactly(q: Queue<Buffer>, t: ThreadId, b: Buffer, wait: Wait)
    requires Fifo(q) && t !in q.callers && q.size == TX_QUEUE_SIZE
    ensures var r := PushPass(q, t, b, wait);
      && (Overrun(r) <==> Stored(q) == q.size && q.putIndex < q.getIndex)
      && (!Overrun(r) ==> Fifo(r))
      && q.pushed <= r.pushed && r.popped == q.popped && r.size == q.size
  {
    hide SlotsLive, DupFree;
    PassOverrunsExactly(q, t, b, wait);
    if !Overrun(PushPass(q, t, b, wait)) {
      PushPassKeepsFifo(q, t, b, wait);
    }
  }

  /** The transmit queue leaves its first-in first-out form in exactly the steps that overflow it. */
  lemma OverrunsExactly(s: Tx, e: TxEvent)
    requires Fifo(s.q) && s.q.size == TX_QUEUE_SIZE
    ensures var r := TxApply(s, e).q;
      && (Overrun(r) <==> Overflows(s, e))
      && (!Overrun(r) ==> Fifo(r))
      && s.q.pushed <= r.pushed && (!e.DmaDone? ==> r.popped == s.q.popped)
  {
    hide SlotsLive, DupFree, ListsValid, IndicesValid, PushPass, PopPass;
    if TxEnabled(s, e) {
      match e
      case WriteBegin(t, b) => PushOverrunsExactly(s.q, t, b, Forever);
      case WriteResume(t) =>
        LeaveKeepsFifo(s.q, t);
        PushOverrunsExactly(Leave(s.q, t), t, s.q.callers[t].item, s.q.callers[t].wait);
      case Check(_) =>
      case Start(_) =>
      case DmaDone => PopKeepsFifo(s.q);
    }
  }

  lemma LeaveKeepsFifo(q: Queue<Buffer>, t: ThreadId)
    requires Fifo(q) && t in q.callers && q.callers[t].PushReady?
    ensures Fifo(Leave(q, t))
  {
    LeaveValid(q, t);
  }

  lemma PopKeepsFifo(q: Queue<Buffer>)
    requires Fifo(q)
    ensures Fifo(AfterPop(q)) && AfterPop(q).pushed == q.pushed
  {
    PopPassKeepsFifo(q, 0, NoWait);
  }

  lemma StartKeepsOrder(s: Tx, t: ThreadId)
    requires Channel(s) && Fifo(s.q) && InOrder(s) && TxEnabled(s, Start(t))
    ensures InOrder(TxApply(s, Start(t))) <==> !WrongStart(s, Start(t))
  {
    assert Starter(s, t);
    PeekIsHead(s.q);
    hide Awake, SlotsLive, IndicesValid, ListsValid, Peek;
  }

  /** The buffer under way is the head of the queue. */
  lemma UnderWayIsHead(s: Tx)
    requires InOrder(s) && s.inFlight.Some?
    ensures Contents(s.q) != [] && Contents(s.q)[0] == s.inFlight.value
  {
    assert s.q.pushed[|s.q.popped|] == s.started[|s.q.popped|];
  }

  lemma HeadIsNext(q: Queue<Buffer>)
    requires q.popped <= q.pushed && Contents(q) != []
    ensures q.popped + [Contents(q)[0]] <= q.pushed
  {
  }

  lemma DoneKeepsOrder(s: Tx)
    requires Fifo(s.q) && InOrder(s) && s.inFlight.Some?
    ensures InOrder(TxApply(s, DmaDone))
  {
    UnderWayIsHead(s);
    PopTakesHead(s.q);
    var q := AfterPop(s.q);
    assert q.popped == s.started && q.popped <= q.pushed;
    if Contents(q) != [] {
      HeadIsNext(q);
    }
    hide SlotsLive, IndicesValid, ListsValid, Peek, AfterPop, Overrun, Fifo, Contents, Stored;
  }

  /** For any number of writers, the order is lost in exactly the wrong starts. */
  lemma StepKeepsOrder(s: Tx, e: TxEvent)
    requires Channel(s) && Fifo(s.q) && InOrder(s)
    ensures InOrder(TxApply(s, e)) <==> !WrongStart(s, e)
  {
    OverrunsExactly(s, e);
    if e.Start? && TxEnabled(s, e) {
      StartKeepsOrder(s, e.t);
    } else if e.DmaDone? && TxEnabled(s, e) {
      DoneKeepsOrder(s);
    } else {
      hide SlotsLive, Q.Valid, Awake, Starter, BeforeCheck, PushPass, PopPass, AfterPop, Peek, Fifo;
    }
  }

  /** Every state of the run has its queue in first-in first-out form. */
  ghost predicate AlwaysFifo(s0: Tx, es: seq<TxEvent>)
    requires Q.Valid(s0.q)
  {
    Fifo(TxExec(s0, es).q) && (es != [] ==> AlwaysFifo(s0, es[..|es| - 1]))
  }

  ghost predicate NeverOverflows(s0: Tx, es: seq<TxEvent>)
    requires Q.Valid(s0.q)
  {
    es != [] ==> NeverOverflows(s0, es[..|es| - 1]) && !Overflows(TxExec(s0, es[..|es| - 1]), es[|es| - 1])
  }

  /** Every state of the run is in order. */
  ghost predicate AlwaysInOrder(s0: Tx, es: seq<TxEvent>)
    requires Q.Valid(s0.q)
  {
    InOrder(TxExec(s0, es)) && (es != [] ==> AlwaysInOrder(s0, es[..|es| - 1]))
  }

  ghost predicate NeverWrong(s0: Tx, es: seq<TxEvent>)
    requires Q.Valid(s0.q)
  {
    es != [] ==> NeverWrong(s0, es[..|es| - 1]) && !WrongStart(TxExec(s0, es[..|es| - 1]), es[|es| - 1])
  }

  /** With any number of writers, the transmit queue delivers what was pushed if and only if no push overflows it. */
  lemma {:induction false} TxFifoExactly(slots: seq<Buffer>, es: seq<TxEvent>)
    requires |slots| == TX_QUEUE_SIZE
    ensures Q.Valid(TxInit(slots).q)
    ensures AlwaysFifo(TxInit(slots), es) <==> NeverOverflows(TxInit(slots), es)
  {
    InitHandShake(slots, 0);
    if es != [] {
      var before, e := es[..|es| - 1], es[|es| - 1];
      TxFifoExactly(slots, before);
      ChannelOverRun(slots, before);
      if AlwaysFifo(TxInit(slots), before) {
        OverrunsExactly(TxExec(TxInit(slots), before), e);
      }
    }
  }

  /**
   * With any number of writers and no overflow, every buffer is started exactly once, in push order, as the
   * head of the queue, and reported, at every point of a run if and only if no step of that run
   * starts a buffer that is not the head.
   */
  lemma {:induction false} InOrderExactly(slots: seq<Buffer>, es: seq<TxEvent>)
    requires |slots| == TX_QUEUE_SIZE
    ensures Q.Valid(TxInit(slots).q)
    ensures NeverOverflows(TxInit(slots), es) ==>
      (AlwaysInOrder(TxInit(slots), es) <==> NeverWrong(TxInit(slots), es))
  {
    InitHandShake(slots, 0);
    HandShakeInOrder(TxInit(slots), 0);
    if es != [] && NeverOverflows(TxInit(slots), es) {
      var before, e := es[..|es| - 1], es[|es| - 1];
      InOrderExactly(slots, before);
      TxFifoExactly(slots, before);
      ChannelOverRun(slots, before);
      hide InOrder, WrongStart, Overflows, TxApply, Channel, WritersApart, TxInit, Fifo;
      if AlwaysInOrder(TxInit(slots), before) {
        StepKeepsOrder(TxExec(TxInit(slots), before), e);
      }
    }
  }

  /** One writer whose checks are in time, with pushes that do not overflow, makes no wrong start. */
  lemma {:induction false} TimelyWriterInOrder(slots: seq<Buffer>, es: seq<TxEvent>, w: ThreadId)
    requires |slots| == TX_QUEUE_SIZE
    ensures Q.Valid(TxInit(slots).q)
    ensures Timely(TxInit(slots), es, w) ==>
      && NeverOverflows(TxInit(slots), es) && NeverWrong(TxInit(slots), es)
      && AlwaysFifo(TxInit(slots), es) && AlwaysInOrder(TxInit(slots), es)
  {
    InitHandShake(slots, w);
    InOrderExactly(slots, es);
    TxFifoExactly(slots, es);
    if Timely(TxInit(slots), es, w) {
      HandShakeOverRun(slots, es, w);
      HandShakeInOrder(TxExec(TxInit(slots), es), w);
      if es != [] {
        TimelyWriterInOrder(slots, es[..|es| - 1], w);
      }
    }
  }

  /** With one writer, the start that follows a claiming check is a wrong one if and only if the check is late. */
  lemma LateCheckExactly(s: Tx, w: ThreadId)
    requires HandShake(s, w) && TxEnabled(s, Check(w)) && !s.activated
    ensures WrongStart(TxApply(s, Check(w)), Start(w)) <==> LateCheck(s, Check(w))
  {
    PeekIsHead(s.q);
    EmptyTestExact(s.q);
    hide SlotsLive, ListsValid, IndicesValid, NoLostPopper, NoLostPusher, Peek;
  }

  /** Nothing can happen before somebody writes again. */
  ghost predicate Quiescent(s: Tx) {
    forall e :: TxEnabled(s, e) ==> e.WriteBegin?
  }

  /**
   * Whatever number of writers took part: when a run has come to rest in order, everything pushed was
   * started and reported, in order, and nobody sleeps in push.
   */
  lemma AllSent(slots: seq<Buffer>, es: seq<TxEvent>)
    requires |slots| == TX_QUEUE_SIZE
    ensures Q.Valid(TxInit(slots).q)
    ensures var s := TxExec(TxInit(slots), es);
      Fifo(s.q) && InOrder(s) && Quiescent(s) ==>
        s.started == s.completed == s.q.popped == s.q.pushed && s.q.pushList == []
  {
    InitHandShake(slots, 0);
    ChannelOverRun(slots, es);
    var s := TxExec(TxInit(slots), es);
    if Fifo(s.q) && InOrder(s) && Quiescent(s) {
      QuiescentIsIdle(s);
      EmptyTestExact(s.q);
    }
  }

  lemma QuiescentIsIdle(s: Tx)
    requires Channel(s) && Quiescent(s) && !Overrun(s.q)
    ensures Empty(s.q) && s.inFlight.None? && s.q.pushList == []
  {
    assert !TxEnabled(s, DmaDone);
    forall t
      ensures !Starter(s, t) && !BeforeCheck(s, t)
    {
      assert !TxEnabled(s, Start(t)) && !TxEnabled(s, Check(t));
    }
    EmptyTestExact(s.q);
    forall t | t in WokenPushers(s.q)
      ensures false
    {
      assert TxEnabled(s, WriteResume(t));
    }
    assert WokenPushers(s.q) == {};
  }

  // Schedules that break the order

  lemma TxExecSnoc(s: Tx, es: seq<TxEvent>, e: TxEvent)
    requires Q.Valid(s.q)
    ensures TxExec(s, es + [e]) == TxApply(TxExec(s, es), e)
  {
    assert (es + [e])[..|es|] == es;
  }

  lemma TxExecNil(s: Tx)
    requires Q.Valid(s.q)
    ensures TxExec(s, []) == s
  {
  }

  /** Nobody sleeps in the queue and its indices are young. */
  ghost predicate Quiet(s: Tx) {
    Fifo(s.q) && s.q.size == TX_QUEUE_SIZE && s.q.callers == map[] && |s.q.pushed| <= 8
  }

  lemma QuietStore(s: Tx, t: ThreadId, b: Buffer)
    requires Quiet(s) && t !in s.phases && |s.q.pushed| < 8
    ensures var r := TxApply(s, WriteBegin(t, b));
      && Quiet(r) && r == s.(q := r.q, phases := s.phases[t := Pushed(b)])
      && r.q.pushed == s.q.pushed + [b] && r.q.popped == s.q.popped
  {
    HeadsSleep(s.q);
    FullTestExact(s.q);
    StoreKeepsFifo(s.q, b);
  }

  lemma QuietCheck(s: Tx, t: ThreadId)
    requires Quiet(s) && t in s.phases && s.phases[t].Pushed? && !s.activated
    ensures TxApply(s, Check(t)) == s.(activated := true, phases := s.phases[t := Starting(s.phases[t].b)])
  {
  }

  lemma QuietStart(s: Tx, t: ThreadId)
    requires Quiet(s) && t in s.phases && s.phases[t].Starting?
    ensures TxApply(s, Start(t)) ==
      s.(phases := s.phases - {t}, inFlight := Some(s.phases[t].b), started := s.started + [s.phases[t].b])
  {
  }

  lemma QuietDone(s: Tx)
    requires Quiet(s) && s.inFlight.Some? && Contents(s.q) != []
    ensures var r, rest := TxApply(s, DmaDone), Contents(s.q)[1..];
      && Quiet(r) && r.phases == s.phases
      && r.q.pushed == s.q.pushed && r.q.popped == s.q.popped + [Contents(s.q)[0]]
      && r.completed == s.completed + [Contents(s.q)[0]]
      && (rest == [] ==> !r.activated && r.inFlight == None && r.started == s.started)
      && (rest != [] ==> r.activated && r.inFlight == Some(rest[0]) && r.started == s.started + [rest[0]])
  {
    PopTakesHead(s.q);
    PopOfInterrupt(s.q, 0);
  }

  lemma QuietInit(slots: seq<Buffer>)
    requires |slots| == TX_QUEUE_SIZE
    ensures Quiet(TxInit(slots))
  {
    InitHandShake(slots, 0);
  }

  /**
   * One writer is not enough: if the channel finishes two buffers between the push of the
   * second one and its check, the second buffer is sent twice.
   */
  lemma LateCheckSendsTwice(slots: seq<Buffer>, a: Buffer, b: Buffer) returns (es: seq<TxEvent>)
    requires |slots| == TX_QUEUE_SIZE
    ensures Q.Valid(TxInit(slots).q) && forall e :: e in es ==> e.DmaDone? || e.t == 0
    ensures var s := TxExec(TxInit(slots), es);
      s.q.pushed == [a, b] && s.started == [a, b, b] && s.completed == [a, b]
  {
    hide TxApply, TxExec, Fifo, Contents;
    var s0 := TxInit(slots);
    QuietInit(slots);
    assert Q.Valid(s0.q) by {
      InitHandShake(slots, 0);
    }
    var es1 := [] + [WriteBegin(0, a)];
    var es2 := es1 + [Check(0)];
    var es3 := es2 + [Start(0)];
    var es4 := es3 + [WriteBegin(0, b)];
    var es5 := es4 + [DmaDone];
    var es6 := es5 + [DmaDone];
    var es7 := es6 + [Check(0)];
    es := es7 + [Start(0)];
    TxExecNil(s0);
    TxExecSnoc(s0, [], WriteBegin(0, a));
    TxExecSnoc(s0, es1, Check(0));
    TxExecSnoc(s0, es2, Start(0));
    TxExecSnoc(s0, es3, WriteBegin(0, b));
    TxExecSnoc(s0, es4, DmaDone);
    TxExecSnoc(s0, es5, DmaDone);
    TxExecSnoc(s0, es6, Check(0));
    TxExecSnoc(s0, es7, Start(0));
    QuietStore(s0, 0, a);
    var s1 := TxApply(s0, WriteBegin(0, a));
    QuietCheck(s1, 0);
    var s2 := TxApply(s1, Check(0));
    QuietStart(s2, 0);
    var s3 := TxApply(s2, Start(0));
    assert s3.phases == map[] && s3.inFlight == Some(a);
    QuietStore(s3, 0, b);
    var s4 := TxApply(s3, WriteBegin(0, b));
    ContentsOf(s4.q, [a, b], 0);
    QuietDone(s4);
    var s5 := TxApply(s4, DmaDone);
    ContentsOf(s5.q, [a, b], 1);
    QuietDone(s5);
    var s6 := TxApply(s5, DmaDone);
    QuietCheck(s6, 0);
    QuietStart(TxApply(s6, Check(0)), 0);
  }

  lemma ContentsOf(q: Queue<Buffer>, pushed: seq<Buffer>, n: nat)
    requires q.pushed == pushed && |q.popped| == n <= |pushed|
    ensures Contents(q) == pushed[n..]
  {
  }

  /** Two writers: the second one's buffer goes out first and twice, the first one's never. */
  lemma TwoWritersBreakTheOrder(slots: seq<Buffer>, a: Buffer, b: Buffer) returns (es: seq<TxEvent>)
    requires |slots| == TX_QUEUE_SIZE
    ensures Q.Valid(TxInit(slots).q)
    ensures var s := TxExec(TxInit(slots), es);
      s.q.pushed == [a, b] && s.started == [b, b] && s.completed == [a]
  {
    hide TxApply, TxExec, Fifo, Contents;
    var s0 := TxInit(slots);
    QuietInit(slots);
    assert Q.Valid(s0.q) by {
      InitHandShake(slots, 0);
    }
    var es1 := [] + [WriteBegin(0, a)];
    var es2 := es1 + [WriteBegin(1, b)];
    var es3 := es2 + [Check(1)];
    var es4 := es3 + [Start(1)];
    es := es4 + [DmaDone];
    TxExecNil(s0);
    TxExecSnoc(s0, [], WriteBegin(0, a));
    TxExecSnoc(s0, es1, WriteBegin(1, b));
    TxExecSnoc(s0, es2, Check(1));
    TxExecSnoc(s0, es3, Start(1));
    TxExecSnoc(s0, es4, DmaDone);
    QuietStore(s0, 0, a);
    var s1 := TxApply(s0, WriteBegin(0, a));
    QuietStore(s1, 1, b);
    var s2 := TxApply(s1, WriteBegin(1, b));
    QuietCheck(s2, 1);
    var s3 := TxApply(s2, Check(1));
    QuietStart(s3, 1);
    var s4 := TxApply(s3, Start(1));
    ContentsOf(s4.q, [a, b], 0);
    QuietDone(s4);
  }
}
