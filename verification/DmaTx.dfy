/** The DMA transmit path in the form of rt_ext/serial.c: the data queue and `activated` updated in place. */
module DmaTransmit {
  import opened Common
  import opened Kernel
  import opened DataQueueModel
  import opened DataQueueFifo
  import opened DataQueues
  import opened DmaTxModel

  class DmaTransmitter {
    const queue: DataQueue<Buffer>
    var activated: bool
    // where each writing thread stands between its regions
    var phases: map<ThreadId, TxPhase>
    // what the DMA channel is sending
    var inFlight: Option<Buffer>
    ghost var started: seq<Buffer>
    ghost var completed: seq<Buffer>

    ghost function View(): Tx
      reads this, queue, queue.slots
    {
      Tx(queue.View(), activated, phases, inFlight, started, completed)
    }

    ghost predicate Valid()
      reads this, queue, queue.slots
    {
      queue.Valid()
    }

    /** The DMA part of opening the device. */
    constructor ()
      ensures Valid() && fresh(queue) && fresh(queue.slots)
      ensures |queue.View().slots| == TX_QUEUE_SIZE && View() == TxInit(queue.View().slots)
    {
      queue := new DataQueue(TX_QUEUE_SIZE, TX_QUEUE_LWM);
      activated, phases, inFlight := false, map[], None;
      started, completed := [], [];
    }

    /** A writer calls push. */
    method BeginWrite(t: ThreadId, b: Buffer) returns (r: Outcome)
      requires Valid() && TxEnabled(View(), WriteBegin(t, b))
      modifies this, queue, queue.slots
      ensures Valid() && View() == TxApply(old(View()), WriteBegin(t, b))
      ensures r == if old(Full(queue.View())) then Suspended else Returned(EOK)
    {
      r := queue.TryPush(t, b, Forever);
      if r == Returned(EOK) {
        phases := phases[t := Pushed(b)];
      }
    }

    /** A writer that slept in push runs again. */
    method ResumeWrite(t: ThreadId) returns (r: Outcome)
      requires Valid() && TxEnabled(View(), WriteResume(t))
      modifies this, queue, queue.slots
      ensures Valid() && View() == TxApply(old(View()), WriteResume(t))
      ensures r ==
        var c := old(queue.callers)[t];
        if c.error != EOK then Returned(c.error)
        else if !old(Full(queue.View())) then Returned(EOK)
        else if c.wait == NoWait then Returned(ETIMEOUT) else Suspended
    {
      var b := queue.callers[t].item;
      r := queue.ContinuePush(t);
      if r == Returned(EOK) {
        phases := phases[t := Pushed(b)];
      }
    }

    /** The writer's region on `activated`; `mine` tells it to start the transfer. */
    method CheckActivated(t: ThreadId) returns (mine: bool)
      requires Valid() && TxEnabled(View(), Check(t))
      modifies this
      ensures Valid() && View() == TxApply(old(View()), Check(t))
      ensures mine == !old(activated)
    {
      if !activated {
        activated := true;
        phases := phases[t := Starting(phases[t].b)];
        return true;
      }
      phases := phases - {t};
      return false;
    }

    /** `dma_transmit`. */
    method Transmit(b: Buffer)
      requires Valid()
      modifies this
      ensures Valid() && View() == old(View()).(inFlight := Some(b), started := old(started) + [b])
    {
      inFlight := Some(b);
      started := started + [b];
    }

    /** The writer starts the transfer it claimed. */
    method StartTransfer(t: ThreadId)
      requires Valid() && TxEnabled(View(), Start(t))
      modifies this
      ensures Valid() && View() == TxApply(old(View()), Start(t))
    {
      var b := phases[t].b;
      phases := phases - {t};
      Transmit(b);
    }

    /** The `RT_SERIAL_EVENT_TX_DMADONE` case; `last` goes to `tx_complete`. */
    method DmaDoneIsr() returns (last: Option<Buffer>)
      requires Valid() && TxEnabled(View(), DmaDone)
      modifies this, queue
      ensures Valid() && View() == TxApply(old(View()), DmaDone)
      ensures completed == old(completed) + (if last.Some? then [last.value] else [])
      ensures last == old(Peek(queue.View()))
    {
      ghost var before := View();
      PopKeepsValid(before.q);
      var r: Outcome;
      r, last := queue.TryPop(0, NoWait);
      var next := queue.Peak();
      if next.Some? {
        activated := true;
        Transmit(next.value);
      } else {
        activated := false;
        inFlight := None;
      }
      if last.Some? {
        completed := completed + [last.value];
      }
    }
  }
}
