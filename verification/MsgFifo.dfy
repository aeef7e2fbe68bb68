/** The message FIFO in the form of src/msg_fifo.c: units with buffers, passed between two data queues. */
module MsgFifos {
  import opened Common
  import opened Kernel
  import opened DataQueueModel
  import opened DataQueueFifo
  import opened DataQueues
  import opened MsgFifoModel

  class MsgUnit {
    var msgSize: U16
    const msgData: array<Byte>

    constructor (size: U16)
      ensures fresh(msgData) && msgData.Length == size && msgSize == 0
    {
      msgSize := 0;
      msgData := new Byte[size];
    }
  }

  class MsgFifo {
    const msgSize: U16
    const fifoSize: U16
    const free: DataQueue<Unit>
    const ready: DataQueue<Unit>
    // a pointer to a unit is its position here
    var units: seq<MsgUnit>
    // the stored messages, oldest first
    ghost var messages: seq<seq<Byte>>

    ghost function View(): Pool
      reads free, free.slots, ready, ready.slots
    {
      Pool(free.View(), ready.View(), map[])
    }

    /** Every unit has a buffer of its own. */
    ghost predicate BuffersValid()
      reads `units, units
    {
      && |units| == fifoSize
      && (forall i :: 0 <= i < |units| ==>
           units[i].msgData.Length == msgSize && units[i].msgSize <= msgSize)
      && (forall i, j :: 0 <= i < j < |units| ==>
           units[i] != units[j] && units[i].msgData != units[j].msgData)
    }

    /** Unit `u` holds the message `text`. */
    ghost predicate Stores(u: Unit, text: seq<Byte>)
      reads `units, units, set i | 0 <= i < |units| :: units[i].msgData
    {
      && u < |units| && units[u].msgSize <= units[u].msgData.Length
      && units[u].msgData[..units[u].msgSize] == text
    }

    /** The state while one call is in progress. */
    ghost predicate During(phases: map<ThreadId, Phase>)
      reads free, free.slots, ready, ready.slots
    {
      && free != ready && free.slots != ready.slots
      && Conserved(Pool(free.View(), ready.View(), phases), fifoSize)
    }

    /** No call is in progress, the units are where they should be, and the ready ones hold the messages. */
    ghost predicate Valid()
      reads this, units, free, free.slots, ready, ready.slots, set i | 0 <= i < |units| :: units[i].msgData
    {
      && BuffersValid()
      && During(map[])
      && MessagesStored(Contents(ready.View()), messages)
    }

    ghost predicate MessagesStored(queued: seq<Unit>, texts: seq<seq<Byte>>)
      reads `units, units, set i | 0 <= i < |units| :: units[i].msgData
    {
      && |texts| == |queued|
      && forall i :: 0 <= i < |queued| ==> Stores(queued[i], texts[i])
    }

    /** The first `k` units are made and queued. */
    ghost predicate Stocking(k: nat)
      reads `units, units, free, free.slots
    {
      && |units| == k <= fifoSize && |free.View().slots| == fifoSize
      && free.View() == Stocked(fifoSize, k, free.View().slots)
      && (forall j :: 0 <= j < k ==> free.View().slots[j] == j)
      && (forall j :: 0 <= j < k ==> units[j].msgData.Length == msgSize && units[j].msgSize == 0)
      && (forall i, j :: 0 <= i < j < k ==> units[i] != units[j] && units[i].msgData != units[j].msgData)
    }

    /** One turn of the loop of `msg_init`. */
    method MakeUnit()
      requires |units| < fifoSize && Stocking(|units|)
      modifies this`units, free, free.slots
      ensures |units| == |old(units)| + 1 && Stocking(|units|)
      ensures units[..|old(units)|] == old(units)
      ensures fresh(units[|old(units)|]) && fresh(units[|old(units)|].msgData)
    {
      var mu := new MsgUnit(msgSize);
      StockOne(fifoSize, |units|, free.View().slots);
      var _ := free.TryPush(0, |units|, NoWait);
      units := units + [mu];
    }

    /** The loop of `msg_init`. */
    method StockAll()
      requires Stocking(|units|)
      modifies this`units, free, free.slots
      ensures Stocking(fifoSize) && old(units) <= units
      ensures forall i :: |old(units)| <= i < |units| ==> fresh(units[i]) && fresh(units[i].msgData)
    {
      while |units| < fifoSize
        invariant Stocking(|units|) && old(units) <= units
        invariant forall i :: |old(units)| <= i < |units| ==> fresh(units[i]) && fresh(units[i].msgData)
      {
        MakeUnit();
      }
    }

    lemma StockedValid()
      requires Stocking(fifoSize) && ready.size == fifoSize && ready.Valid()
      requires ready.View() == Init(fifoSize, 0, ready.View().slots)
      requires free != ready && free.slots != ready.slots && messages == []
      ensures Valid() && View() == InitialPool(fifoSize, ready.View().slots)
    {
      assert free.View().slots == Numbered(fifoSize);
      InitialConserved(fifoSize, ready.View().slots);
    }

    /** `msg_init` when every allocation succeeds. */
    constructor (msgSize: U16, fifoSize: U16)
      ensures Valid() && messages == []
      ensures this.msgSize == msgSize && this.fifoSize == fifoSize
      ensures View() == InitialPool(fifoSize, ready.View().slots)
      ensures fresh(free) && fresh(free.slots) && fresh(ready) && fresh(ready.slots)
      ensures forall i :: 0 <= i < |units| ==> fresh(units[i]) && fresh(units[i].msgData)
    {
      hide DataQueueModel.Valid, Conserved;
      this.msgSize, this.fifoSize := msgSize, fifoSize;
      free := new DataQueue<Unit>(fifoSize, 0);
      ready := new DataQueue<Unit>(fifoSize, 0);
      units, messages := [], [];
      new;
      StockAll();
      StockedValid();
    }

    lemma DuringCounts(phases: map<ThreadId, Phase>)
      requires During(phases)
      ensures |Contents(free.View())| + |Contents(ready.View())| + |Held(phases)| == fifoSize
      ensures forall t :: Holds(phases, t) ==> phases[t].u < fifoSize && phases[t].u !in Contents(ready.View())
      ensures forall u :: u in Contents(ready.View()) ==> u < fifoSize
    {
      PartitionCount(Contents(free.View()), Contents(ready.View()), phases, fifoSize);
    }

    /** The first attempt of `msg_push` to get a unit. */
    method TakeFreeUnit(t: ThreadId) returns (u: Option<Unit>)
      requires During(map[]) && t !in ready.callers
      modifies free
      ensures u.None? <==> |old(Contents(ready.View()))| == fifoSize
      ensures During(Solo(t, if u.Some? then Filling(u.value) else WantsReady))
    {
      DuringCounts(map[]);
      SoloTakeFree(View(), t, fifoSize);
      var r;
      r, u := free.TryPop(t, NoWait);
    }

    /** The second attempt, on the oldest message. */
    method TakeReadyUnit(t: ThreadId) returns (u: Option<Unit>)
      requires During(Solo(t, WantsReady))
      modifies ready
      ensures ready.pushed == old(ready.pushed) && ready.popList == old(ready.popList)
      ensures u.None? <==> old(Contents(ready.View())) == []
      ensures u.None? ==> During(map[]) && Contents(ready.View()) == []
      ensures u.Some? ==>
        During(Solo(t, Filling(u.value))) && Contents(ready.View()) == old(Contents(ready.View()))[1..]
    {
      SoloTakeReady(Pool(free.View(), ready.View(), Solo(t, WantsReady)), t, fifoSize);
      WaitingPoppers(ready.View(), t, 0, NoWait);
      var r;
      r, u := ready.TryPop(t, NoWait);
    }

    /** The unchecked push of the filled unit; the first waiting thread is resumed. */
    method CommitReadyUnit(t: ThreadId, u: Unit)
      requires During(Solo(t, Filling(u)))
      requires WrapSafe(fifoSize) || |ready.pushed| < MODULUS_16
      modifies ready, ready.slots
      ensures During(map[]) && Contents(ready.View()) == old(Contents(ready.View())) + [u]
      ensures ready.popList == if old(ready.popList) == [] then [] else old(ready.popList)[1..]
    {
      SoloCommitReady(Pool(free.View(), ready.View(), Solo(t, Filling(u))), t, u, fifoSize);
      WaitingPoppers(ready.View(), t, u, NoWait);
      var _ := ready.TryPush(t, u, NoWait);
    }

    /** The pop of `msg_pop`. */
    method StartPopUnit(t: ThreadId, wait: Wait) returns (r: Outcome, u: Option<Unit>)
      requires During(map[]) && t !in ready.callers
      modifies ready
      ensures u.None? <==> old(Contents(ready.View())) == []
      ensures u.None? ==> During(map[]) && Contents(ready.View()) == []
      ensures u.None? ==> r == if wait == NoWait then Returned(ETIMEOUT) else Suspended
      ensures r == Suspended ==> ready.popList == old(ready.popList) + [t]
      ensures u.Some? ==> r == Returned(EOK) && u.value == old(Contents(ready.View()))[0]
      ensures u.Some? ==>
        During(Solo(t, Draining(u.value))) && Contents(ready.View()) == old(Contents(ready.View()))[1..]
    {
      SoloPop(View(), t, ready.View(), wait, fifoSize);
      WaitingPoppers(ready.View(), t, 0, wait);
      r, u := ready.TryPop(t, wait);
    }

    /** The pop of `msg_pop` after the thread was resumed. */
    method ContinuePopUnit(t: ThreadId) returns (r: Outcome, u: Option<Unit>)
      requires During(map[]) && t in ready.callers && ready.callers[t].PopReady?
      modifies ready
      ensures var c := old(ready.callers)[t];
        if c.error != EOK then
          r == Returned(c.error) && u.None? && Contents(ready.View()) == old(Contents(ready.View()))
        else
          && (u.None? <==> old(Contents(ready.View())) == [])
          && (u.None? ==> Contents(ready.View()) == [])
          && (u.None? ==> r == if c.wait == NoWait then Returned(ETIMEOUT) else Suspended)
          && (u.Some? ==> r == Returned(EOK) && u.value == old(Contents(ready.View()))[0])
      ensures u.None? ==> During(map[])
      ensures u.Some? ==>
        During(Solo(t, Draining(u.value))) && Contents(ready.View()) == old(Contents(ready.View()))[1..]
    {
      ghost var before := ready.View();
      SoloResume(View(), t, fifoSize);
      EmptyTestExact(before);
      hide Conserved, Apply;
      r, u := ready.ContinuePop(t);
    }

    /** The unchecked push of the emptied unit. */
    method CommitFreeUnit(t: ThreadId, u: Unit)
      requires During(Solo(t, Draining(u)))
      requires WrapSafe(fifoSize) || |free.pushed| < MODULUS_16
      modifies free, free.slots
      ensures During(map[])
    {
      SoloCommitFree(Pool(free.View(), ready.View(), Solo(t, Draining(u))), t, u, fifoSize);
      var _ := free.TryPush(t, u, NoWait);
    }

    /** `memcpy` into the unit and its new length; the queued messages stay. */
    method FillUnit(u: Unit, msgData: array<Byte>, n: U16, ghost queued: seq<Unit>)
      requires BuffersValid() && MessagesStored(queued, messages) && u < fifoSize && u !in queued
      requires n <= msgSize && n <= msgData.Length && units[u].msgData != msgData
      modifies units[u], units[u].msgData
      ensures BuffersValid() && MessagesStored(queued + [u], messages + [msgData[..n]])
    {
      var mu := units[u];
      MemCopy(mu.msgData, 0, msgData, 0, n);
      mu.msgSize := n;
      assert MessagesStored(queued, messages);
      assert Stores(u, msgData[..n]);
    }

    /** The two attempts of `msg_push`; the second one takes the unit of the oldest message. */
    method TakeUnit(t: ThreadId) returns (u: Option<Unit>)
      requires Valid() && t !in ready.callers
      modifies `messages, free, ready
      ensures u.None? <==> fifoSize == 0
      ensures u.None? ==> Valid() && messages == old(messages)
      ensures u.Some? ==> During(Solo(t, Filling(u.value))) && MessagesStored(Contents(ready.View()), messages)
      ensures u.Some? ==> u.value < fifoSize && u.value !in Contents(ready.View())
      ensures messages == if 0 < fifoSize <= |old(messages)| then old(messages)[1..] else old(messages)
      ensures ready.pushed == old(ready.pushed) && ready.popList == old(ready.popList)
    {
      hide Conserved, Contents;
      DuringCounts(map[]);
      u := TakeFreeUnit(t);
      if u.None? {
        u := TakeReadyUnit(t);
        if u.None? {
          return;
        }
        messages := messages[1..];
      }
      DuringCounts(Solo(t, Filling(u.value)));
      assert Holds(Solo(t, Filling(u.value)), t);
    }

    /**
     * `msg_push`: append the message, cut to the unit size; the oldest message goes if all units are ready. The
     * first thread waiting in `msg_pop` is resumed.
     */
    method Push(t: ThreadId, msgData: array<Byte>, length: U16) returns (code: int)
      requires Valid() && t !in ready.callers
      requires Min(length, msgSize) <= msgData.Length
      requires forall i :: 0 <= i < |units| ==> units[i].msgData != msgData
      requires WrapSafe(fifoSize) || |ready.pushed| < MODULUS_16
      modifies `messages, free, ready, ready.slots, units, set i | 0 <= i < |units| :: units[i].msgData
      ensures Valid()
      ensures fifoSize == 0 ==> code == -4 && messages == old(messages)
      ensures fifoSize > 0 ==> code == 0
      ensures fifoSize > 0 ==> messages == DropOldest(old(messages), msgData[..Min(length, msgSize)], fifoSize)
      ensures fifoSize > 0 && old(ready.popList) != [] ==> ready.popList == old(ready.popList)[1..]
    {
      hide During, MessagesStored, Stores, Contents;
      var n := if length > msgSize then msgSize else length;
      var u := TakeUnit(t);
      if u.None? {
        return -4;
      }
      FillUnit(u.value, msgData, n, Contents(ready.View()));
      messages := messages + [msgData[..n]];
      CommitReadyUnit(t, u.value);
      assert BuffersValid() && MessagesStored(Contents(ready.View()), messages);
      code := 0;
    }

    lemma FirstStored(u: Unit, queued: seq<Unit>, texts: seq<seq<Byte>>)
      requires MessagesStored([u] + queued, texts)
      ensures texts != [] && Stores(u, texts[0]) && MessagesStored(queued, texts[1..])
    {
      hide Stores;
      assert ([u] + queued)[0] == u;
      forall i | 0 <= i < |queued|
        ensures Stores(queued[i], texts[1..][i])
      {
        assert ([u] + queued)[i + 1] == queued[i];
      }
    }

    /** `memcpy` out of the unit of the oldest message; the queued messages stay. */
    method DrainUnit(u: Unit, msgData: array<Byte>, ghost queued: seq<Unit>, ghost texts: seq<seq<Byte>>)
      returns (length: U16)
      requires BuffersValid() && u < fifoSize && u !in queued
      requires MessagesStored([u] + queued, texts) && texts != [] && |texts[0]| <= msgData.Length
      requires forall i :: 0 <= i < |units| ==> units[i].msgData != msgData
      modifies units[u], msgData
      ensures BuffersValid() && MessagesStored(queued, texts[1..])
      ensures length == |texts[0]| && msgData[..length] == texts[0]
    {
      FirstStored(u, queued, texts);
      var mu := units[u];
      MemCopy(msgData, 0, mu.msgData, 0, mu.msgSize);
      length := mu.msgSize;
      mu.msgSize := 0;
      assert MessagesStored(queued, texts[1..]);
    }

    /** The unit of the oldest message is in the hands of a consumer. */
    ghost predicate HandedOver(t: ThreadId, u: Unit)
      reads this, units, free, free.slots, ready, ready.slots, set i | 0 <= i < |units| :: units[i].msgData
    {
      && BuffersValid() && During(Solo(t, Draining(u)))
      && u < fifoSize && u !in Contents(ready.View())
      && MessagesStored([u] + Contents(ready.View()), messages)
    }

    lemma TakenIsHandedOver(t: ThreadId, u: Unit, queued: seq<Unit>)
      requires BuffersValid() && During(Solo(t, Draining(u)))
      requires queued != [] && u == queued[0] && Contents(ready.View()) == queued[1..]
      requires MessagesStored(queued, messages)
      ensures HandedOver(t, u)
    {
      hide Conserved, Contents, Stores;
      DuringCounts(Solo(t, Draining(u)));
      assert Holds(Solo(t, Draining(u)), t);
      assert queued == [u] + Contents(ready.View());
    }

    /** What `msg_pop` does with the unit: copy the message out and return the unit. */
    method Deliver(t: ThreadId, u: Unit, msgData: array<Byte>) returns (length: U16)
      requires HandedOver(t, u) && messages != [] && |messages[0]| <= msgData.Length
      requires forall i :: 0 <= i < |units| ==> units[i].msgData != msgData
      requires WrapSafe(fifoSize) || |free.pushed| < MODULUS_16
      modifies `messages, free, free.slots, units, msgData
      ensures Valid() && messages == old(messages)[1..]
      ensures length == |old(messages)[0]| <= msgData.Length && msgData[..length] == old(messages)[0]
    {
      hide During, Contents, Stores, MessagesStored;
      length := DrainUnit(u, msgData, Contents(ready.View()), messages);
      messages := messages[1..];
      CommitFreeUnit(t, u);
    }

    /** The pop of `msg_pop` hands over the unit of the oldest message. */
    method TakeMessage(t: ThreadId, wait: Wait) returns (r: Outcome, u: Option<Unit>)
      requires Valid() && t !in ready.callers
      modifies ready
      ensures u.None? <==> messages == []
      ensures u.None? ==> Valid() && r == if wait == NoWait then Returned(ETIMEOUT) else Suspended
      ensures r == Suspended ==> ready.popList == old(ready.popList) + [t]
      ensures u.Some? ==> r == Returned(EOK) && HandedOver(t, u.value)
      ensures free.pushed == old(free.pushed)
    {
      assert free != ready;
      hide During, Stores, Conserved;
      ghost var queued := Contents(ready.View());
      assert |queued| == |messages|;
      r, u := StartPopUnit(t, wait);
      if u.Some? {
        TakenIsHandedOver(t, u.value, queued);
      }
    }

    /** The same after the thread was resumed. */
    method TakeMessageAgain(t: ThreadId) returns (r: Outcome, u: Option<Unit>)
      requires Valid() && t in ready.callers && ready.callers[t].PopReady?
      modifies ready
      ensures u.None? <==> old(ready.callers)[t].error != EOK || messages == []
      ensures u.None? ==> Valid() && var c := old(ready.callers)[t];
        r == if c.error != EOK then Returned(c.error) else if c.wait == NoWait then Returned(ETIMEOUT) else Suspended
      ensures u.Some? ==> r == Returned(EOK) && HandedOver(t, u.value)
      ensures free.pushed == old(free.pushed)
    {
      assert free != ready;
      hide During, Stores, Conserved;
      ghost var queued := Contents(ready.View());
      assert |queued| == |messages|;
      r, u := ContinuePopUnit(t);
      if u.Some? {
        TakenIsHandedOver(t, u.value, queued);
      }
    }

    /** `msg_pop`: return the oldest message with its stored length, or fail or sleep if there is none. */
    method Pop(t: ThreadId, msgData: array<Byte>, wait: Wait) returns (r: Outcome, length: U16)
      requires Valid() && t !in ready.callers
      requires messages != [] ==> |messages[0]| <= msgData.Length
      requires forall i :: 0 <= i < |units| ==> units[i].msgData != msgData
      requires WrapSafe(fifoSize) || |free.pushed| < MODULUS_16
      modifies `messages, free, free.slots, ready, units, msgData
      ensures Valid()
      ensures old(messages) == [] ==>
        && r == (if wait == NoWait then Returned(ETIMEOUT) else Suspended)
        && messages == [] && msgData[..] == old(msgData[..])
        && (r == Suspended ==> ready.popList == old(ready.popList) + [t])
      ensures old(messages) != [] ==>
        && r == Returned(EOK) && messages == old(messages)[1..]
        && length == |old(messages)[0]| <= msgData.Length && msgData[..length] == old(messages)[0]
    {
      hide During, Contents, Stores, MessagesStored, HandedOver;
      length := 0;
      var u;
      r, u := TakeMessage(t, wait);
      if u.Some? {
        length := Deliver(t, u.value, msgData);
      }
    }

    /** `msg_pop` goes on after its thread was resumed: by a push, by its timer or by a reset. */
    method ContinuePop(t: ThreadId, msgData: array<Byte>) returns (r: Outcome, length: U16)
      requires Valid() && t in ready.callers && ready.callers[t].PopReady?
      requires messages != [] ==> |messages[0]| <= msgData.Length
      requires forall i :: 0 <= i < |units| ==> units[i].msgData != msgData
      requires WrapSafe(fifoSize) || |free.pushed| < MODULUS_16
      modifies `messages, free, free.slots, ready, units, msgData
      ensures Valid()
      ensures var error := old(ready.callers)[t].error;
        if error != EOK then r == Returned(error) && messages == old(messages) && msgData[..] == old(msgData[..])
        else if old(messages) == [] then
          && r == (if old(ready.callers)[t].wait == NoWait then Returned(ETIMEOUT) else Suspended)
          && messages == [] && msgData[..] == old(msgData[..])
        else
          && r == Returned(EOK) && messages == old(messages)[1..]
          && length == |old(messages)[0]| <= msgData.Length && msgData[..length] == old(messages)[0]
    {
      hide During, Contents, Stores, MessagesStored, HandedOver;
      length := 0;
      var u;
      r, u := TakeMessageAgain(t);
      if u.Some? {
        length := Deliver(t, u.value, msgData);
      }
    }

    /** The timer of a thread waiting in `msg_pop` runs out. */
    method TimeoutPop(t: ThreadId)
      requires Valid() && IsPopAsleep(ready.View(), t)
      modifies ready
      ensures Valid() && messages == old(messages)
      ensures ready.View() == WakePop(old(ready.View()), t, ETIMEOUT)
    {
      WakeConserves(View(), t, ETIMEOUT, fifoSize);
      ready.ResumePop(t, ETIMEOUT);
    }
  }
}
