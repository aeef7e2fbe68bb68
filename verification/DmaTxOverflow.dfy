/** A schedule of one writer that overflows the DMA transmit queue of rt_ext/serial.c. */
module DmaTxOverflow {
  import opened Common
  import opened Kernel
  import opened DataQueueModel
  import Q = DataQueueModel
  import opened DataQueueWakeups
  import opened DataQueueFifo
  import opened DmaTxModel

  /** One writer has kept the channel busy with copies of `a`; `stored` of them are queued and one is under way. */
  ghost predicate Busy(s: Tx, a: Buffer, popped: nat, stored: nat) {
    && Fifo(s.q) && s.q.size == TX_QUEUE_SIZE && s.q.callers == map[] && s.phases == map[]
    && s.activated && s.inFlight == Some(a) && InOrder(s)
    && |s.q.popped| == popped && Stored(s.q) == stored && AllAre(s.q.pushed, a)
  }

  lemma BusyWrite(s: Tx, a: Buffer, popped: nat, stored: nat)
    requires Busy(s, a, popped, stored) && stored < TX_QUEUE_SIZE
    ensures Q.Valid(TxApply(s, WriteBegin(0, a)).q)
    ensures Busy(TxApply(TxApply(s, WriteBegin(0, a)), Check(0)), a, popped, stored + 1)
  {
    TxApplyValid(s, WriteBegin(0, a));
    HeadsSleep(s.q);
    FullTestExact(s.q);
    StoreKeepsFifo(s.q, a);
    hide SlotsLive;
    assert s.phases[0 := Pushed(a)] - {0} == map[];
  }

  lemma BusyDone(s: Tx, a: Buffer, popped: nat, stored: nat)
    requires Busy(s, a, popped, stored) && 2 <= stored
    ensures Busy(TxApply(s, DmaDone), a, popped + 1, stored - 1)
  {
    DoneKeepsOrder(s);
    PopTakesHead(s.q);
    PopOfInterrupt(s.q, 0);
    hide SlotsLive, PopPass, AfterPop, InOrder, ListsValid, IndicesValid, Peek;
    var q := AfterPop(s.q);
    assert Contents(q)[0] == q.pushed[|q.popped|];
  }

  lemma FirstIsBusy(s: Tx, a: Buffer)
    requires Quiet(s) && s.phases == map[] && s.activated && s.inFlight == Some(a)
    requires s.q.pushed == [a] && s.q.popped == [] && s.started == [a] && s.completed == []
    ensures Busy(s, a, 0, 1)
  {
  }

  lemma FirstWrite(slots: seq<Buffer>, a: Buffer) returns (es: seq<TxEvent>)
    requires |slots| == TX_QUEUE_SIZE
    ensures Q.Valid(TxInit(slots).q) && Busy(TxExec(TxInit(slots), es), a, 0, 1)
  {
    var s0 := TxInit(slots);
    QuietInit(slots);
    hide TxApply, TxExec, Fifo, Busy;
    var es1 := [] + [WriteBegin(0, a)];
    var es2 := es1 + [Check(0)];
    es := es2 + [Start(0)];
    TxExecNil(s0);
    TxExecSnoc(s0, [], WriteBegin(0, a));
    QuietStore(s0, 0, a);
    TxExecSnoc(s0, es1, Check(0));
    QuietCheck(TxExec(s0, es1), 0);
    TxExecSnoc(s0, es2, Start(0));
    QuietStart(TxExec(s0, es2), 0);
    FirstIsBusy(TxExec(s0, es), a);
  }

  /** One more buffer is queued behind the one under way. */
  lemma WriteOn(s0: Tx, es: seq<TxEvent>, a: Buffer, popped: nat, stored: nat) returns (more: seq<TxEvent>)
    requires Q.Valid(s0.q) && Busy(TxExec(s0, es), a, popped, stored) && stored < TX_QUEUE_SIZE
    ensures Busy(TxExec(s0, more), a, popped, stored + 1)
  {
    more := es + [WriteBegin(0, a)] + [Check(0)];
    BusyWrite(TxExec(s0, es), a, popped, stored);
    TxExecSnoc(s0, es, WriteBegin(0, a));
    TxExecSnoc(s0, es + [WriteBegin(0, a)], Check(0));
  }

  lemma {:induction false} KeepBusy(slots: seq<Buffer>, a: Buffer, k: nat) returns (es: seq<TxEvent>)
    requires |slots| == TX_QUEUE_SIZE
    ensures Q.Valid(TxInit(slots).q) && Busy(TxExec(TxInit(slots), es), a, k, 1)
  {
    hide TxApply, Busy;
    if k == 0 {
      es := FirstWrite(slots, a);
    } else {
      var prev := KeepBusy(slots, a, k - 1);
      var more := WriteOn(TxInit(slots), prev, a, k - 1, 1);
      BusyDone(TxExec(TxInit(slots), more), a, k - 1, 2);
      TxExecSnoc(TxInit(slots), more, DmaDone);
      es := more + [DmaDone];
    }
  }

  lemma {:induction false} FillUp(slots: seq<Buffer>, a: Buffer, k: nat, stored: nat) returns (es: seq<TxEvent>)
    requires |slots| == TX_QUEUE_SIZE && 1 <= stored <= TX_QUEUE_SIZE
    ensures Q.Valid(TxInit(slots).q) && Busy(TxExec(TxInit(slots), es), a, k, stored)
  {
    if stored == 1 {
      es := KeepBusy(slots, a, k);
    } else {
      var prev := FillUp(slots, a, k, stored - 1);
      es := WriteOn(TxInit(slots), prev, a, k, stored - 1);
    }
  }

  /** The push at the wrapped index takes the slot of the buffer under way. */
  lemma OverflowAtWrap(s: Tx, a: Buffer, b: Buffer)
    requires Busy(s, a, MODULUS_16 - TX_QUEUE_SIZE, TX_QUEUE_SIZE)
    ensures Overflows(s, WriteBegin(0, b)) && Q.Valid(TxApply(s, WriteBegin(0, b)).q)
    ensures TxApply(TxApply(s, WriteBegin(0, b)), DmaDone).completed == s.completed + [b]
  {
    var s1 := TxApply(s, WriteBegin(0, b));
    TxApplyValid(s, WriteBegin(0, b));
    TruncateNear(|s.q.popped|);
    TruncateNear(|s.q.pushed|);
    FullTestExact(s.q);
    HeadsSleep(s.q);
    assert s1.q == Store(s.q, b);
    hide SlotsLive, ListsValid, InOrder;
    assert AfterPop(s1.q).popped == s.q.popped + [b];
  }

  /**
   * A writer that stays ahead of the channel overflows the queue with its 65537th push; the done interrupt
   * for the buffer under way then reports the new one.
   */
  lemma TransmitQueueOverflows(slots: seq<Buffer>, a: Buffer, b: Buffer) returns (es: seq<TxEvent>)
    requires |slots| == TX_QUEUE_SIZE
    ensures Q.Valid(TxInit(slots).q)
    ensures var s := TxExec(TxInit(slots), es);
      && s.inFlight == Some(a) && |s.q.pushed| == MODULUS_16
      && Overflows(s, WriteBegin(0, b)) && Q.Valid(TxApply(s, WriteBegin(0, b)).q)
      && TxApply(TxApply(s, WriteBegin(0, b)), DmaDone).completed == s.completed + [b]
  {
    es := FillUp(slots, a, MODULUS_16 - TX_QUEUE_SIZE, TX_QUEUE_SIZE);
    OverflowAtWrap(TxExec(TxInit(slots), es), a, b);
  }

  /** Any number of writers: the first 65536 pushes do not overflow the queue. */
  lemma {:induction false} FirstPushesFit(slots: seq<Buffer>, es: seq<TxEvent>)
    requires |slots| == TX_QUEUE_SIZE
    ensures Q.Valid(TxInit(slots).q)
    ensures |TxExec(TxInit(slots), es).q.pushed| <= MODULUS_16 ==> Fifo(TxExec(TxInit(slots), es).q)
  {
    InitHandShake(slots, 0);
    if es != [] && |TxExec(TxInit(slots), es).q.pushed| <= MODULUS_16 {
      var s, e := TxExec(TxInit(slots), es[..|es| - 1]), es[|es| - 1];
      FirstPushesFit(slots, es[..|es| - 1]);
      ChannelOverRun(slots, es[..|es| - 1]);
      PushesGrow(s, e);
      OverrunsExactly(s, e);
      if Overflows(s, e) {
        OverflowsLate(s, e);
      }
    }
  }

  lemma PushesGrow(s: Tx, e: TxEvent)
    requires Q.Valid(s.q)
    ensures s.q.pushed <= TxApply(s, e).q.pushed
  {
    hide ListsValid, IndicesValid;
  }

  lemma OverflowsLate(s: Tx, e: TxEvent)
    requires Fifo(s.q) && s.q.size == TX_QUEUE_SIZE && Overflows(s, e)
    ensures |TxApply(s, e).q.pushed| > MODULUS_16
  {
    OverrunsExactly(s, e);
    if |s.q.pushed| < MODULUS_16 {
      TruncateNear(|s.q.popped|);
      TruncateNear(|s.q.pushed|);
    }
    hide TxApply, Fifo;
    assert Stored(TxApply(s, e).q) > TX_QUEUE_SIZE;
  }

  /** The number of pushes up to which every schedule keeps the transmit queue in order is exactly 65536. */
  lemma TransmitPushesExactly(slots: seq<Buffer>, n: nat)
    requires |slots| == TX_QUEUE_SIZE
    ensures Q.Valid(TxInit(slots).q)
    ensures (forall es :: |TxExec(TxInit(slots), es).q.pushed| <= n ==> Fifo(TxExec(TxInit(slots), es).q))
      <==> n <= MODULUS_16
  {
    InitHandShake(slots, 0);
    if n <= MODULUS_16 {
      forall es
        ensures |TxExec(TxInit(slots), es).q.pushed| <= n ==> Fifo(TxExec(TxInit(slots), es).q)
      {
        FirstPushesFit(slots, es);
      }
    } else {
      var es := TransmitQueueOverflows(slots, 0, 0);
      var s := TxExec(TxInit(slots), es);
      TxExecSnoc(TxInit(slots), es, WriteBegin(0, 0));
      OneMoreOverruns(s, WriteBegin(0, 0));
      assert |TxExec(TxInit(slots), es + [WriteBegin(0, 0)]).q.pushed| <= n;
    }
  }

  lemma OneMoreOverruns(s: Tx, e: TxEvent)
    requires Q.Valid(s.q) && 0 < s.q.size && !Overrun(s.q) && e.WriteBegin? && Overflows(s, e)
    ensures |TxApply(s, e).q.pushed| == |s.q.pushed| + 1 && !Fifo(TxApply(s, e).q)
  {
    hide SlotsLive;
    FullTestExact(s.q);
    HeadsSleep(s.q);
  }
}
