/**
 * The interrupt transmit path in the form of the sources: registers, completion and loop variables
 * updated in place. A method ends where an interrupt or the peripheral may come in between.
 */
module IntTransmit {
  import opened Common
  import opened Kernel
  import opened CompletionModel
  import opened Completions
  import opened IntTxModel

  class IntTransmitter {
    var dr: Option<Byte>
    var shifter: Option<Byte>
    var tc: bool
    var tcie: bool
    ghost var wire: seq<Byte>
    const completion: CompletionObject
    // the local variables of the loop, and where it stands
    const data: seq<Byte>
    var pos: nat
    var phase: Phase

    ghost function View(): Sender
      reads this, completion
    {
      Sender(data, pos, phase, Uart(dr, shifter, tc, tcie, wire), completion.View())
    }

    ghost predicate Valid()
      reads this, completion
    {
      completion.Valid()
    }

    /** A call on freshly opened hardware, whose reset value has TC set. */
    constructor (data: seq<Byte>)
      ensures Valid() && fresh(completion)
      ensures View() == Start(data, Uart(None, None, true, false, []), INIT)
      ensures Ready(Uart(None, None, true, false, []), INIT)
    {
      dr, shifter, tc, tcie, wire := None, None, true, false, [];
      completion := new CompletionObject();
      this.data, pos, phase := data, 0, LoopTop;
    }

    /** The loop test. */
    method TestLoop() returns (more: bool)
      requires Valid() && phase == LoopTop
      modifies this
      ensures Valid() && more == (pos < |data|)
      ensures View() == if more then old(View()) else Take(old(View()), Return)
    {
      if pos < |data| {
        return true;
      }
      phase := Returned;
      return false;
    }

    /** `stm32_putc`: the TXE test. */
    method TestTxe() returns (empty: bool)
      requires Valid() && CanStep(View(), CheckTxe)
      modifies this
      ensures Valid() && View() == Take(old(View()), CheckTxe)
      ensures empty == old(dr).None?
    {
      if dr.Some? {
        phase := SawFull;
        return false;
      }
      phase := SawEmpty;
      return true;
    }

    /** `stm32_putc`: the byte goes into the data register. */
    method WriteData()
      requires Valid() && CanStep(View(), WriteDr)
      modifies this
      ensures Valid() && View() == Take(old(View()), WriteDr)
    {
      dr := Some(data[pos]);
      tc := false;
      phase := JustWritten;
    }

    /** `stm32_putc`: either branch enables the interrupt, then returns -1 or 1 to the loop. */
    method EnableInterrupt() returns (result: int)
      requires Valid() && CanStep(View(), EnableTc)
      modifies this
      ensures Valid() && View() == Take(old(View()), EnableTc)
      ensures result == if old(phase).SawFull? then -1 else 1
    {
      tcie := true;
      result := if phase.SawFull? then -1 else 1;
      if result == -1 {
        phase := BeforeWait;
      } else {
        pos := pos + 1;
        phase := LoopTop;
      }
    }

    method BeginWait() returns (asleep: bool)
      requires Valid() && CanStep(View(), EnterWait)
      modifies this, completion
      ensures Valid() && View() == Take(old(View()), EnterWait)
      ensures asleep == !old(completion.flag)
    {
      var result := completion.EnterWait(WRITER, Forever);
      asleep := result.None?;
      phase := if asleep then InWait else LoopTop;
    }

    method EndWait()
      requires Valid() && CanStep(View(), ExitWait)
      modifies this, completion
      ensures Valid() && View() == Take(old(View()), ExitWait)
    {
      var result := completion.ExitWait(WRITER);
      phase := LoopTop;
    }

    /** The peripheral moves the data register into the shift register. */
    method ShiftOut()
      requires Valid() && CanStep(View(), Shift)
      modifies this
      ensures Valid() && View() == Take(old(View()), Shift)
    {
      shifter := dr;
      dr := None;
    }

    /** The last bit of the shift register has left. */
    method FinishByte()
      requires Valid() && CanStep(View(), Finish)
      modifies this
      ensures Valid() && View() == Take(old(View()), Finish)
    {
      wire := wire + [shifter.value];
      shifter := None;
      if dr.None? {
        tc := true;
      }
    }

    /** The TC part of `uart_isr` with the `RT_SERIAL_EVENT_TX_DONE` case. */
    method UartTcIsr()
      requires Valid()
      modifies this, completion
      ensures Valid() && View() == Take(old(View()), TcIsr)
    {
      if tc && tcie {
        completion.Complete();
        tcie := false;
        tc := false;
      }
    }
  }
}
