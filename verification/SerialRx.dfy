/** The receive side in the form of rt_ext/serial.c and rt_ext/usart.c: index fields and a byte buffer. */
module SerialRx {
  import opened Common
  import opened SerialRxModel
  import opened IntRxModel

  const RX_DMADONE: Byte := 0x03

  class SerialRxFifo {
    const bufsz: U16
    const buffer: array<Byte>
    var putIndex: U16
    var getIndex: U16
    var isFull: bool

    ghost function Index(): RxIndex
      reads this
    {
      RxIndex(putIndex, getIndex, isFull)
    }

    ghost function Fifo(): IntFifo
      reads this, buffer
    {
      IntFifo(Index(), buffer[..])
    }

    constructor (bufsz: U16)
      ensures this.bufsz == bufsz == buffer.Length && fresh(buffer)
      ensures Index() == RxIndex(0, 0, false)
    {
      this.bufsz := bufsz;
      buffer := new Byte[bufsz](_ => 0);
      putIndex, getIndex, isFull := 0, 0, false;
    }

    // DMA mode

    /** `_serial_fifo_calc_recved_len`. */
    method CalcRecvedLen() returns (n: int)
      ensures n == RecvedLen(Index(), bufsz)
    {
      if putIndex == getIndex {
        return if !isFull then 0 else bufsz;
      }
      if putIndex > getIndex {
        return putIndex - getIndex;
      }
      return bufsz - (getIndex - putIndex);
    }

    /** `rt_dma_recv_update_get_index`. */
    method UpdateGetIndex(len: nat)
      requires 0 < bufsz && len <= RecvedLen(Index(), bufsz)
      modifies this`getIndex, this`isFull
      ensures Index() == UpdateGet(old(Index()), bufsz, len)
    {
      if isFull && len != 0 {
        isFull := false;
      }
      getIndex := Truncate16(getIndex + len);
      if getIndex > bufsz {
        getIndex := getIndex % bufsz;
      }
    }

    /** `rt_dma_recv_update_put_index`. */
    method UpdatePutIndex(len: int)
      requires 0 < bufsz
      modifies this
      ensures Index() == UpdatePut(old(Index()), bufsz, len)
    {
      if getIndex <= putIndex {
        putIndex := Truncate16(putIndex + len);
        if putIndex >= bufsz {
          putIndex := putIndex % bufsz;
          if putIndex >= getIndex {
            getIndex := putIndex;
            isFull := true;
          }
        }
      } else {
        putIndex := Truncate16(putIndex + len);
        if putIndex >= getIndex {
          if putIndex >= bufsz {
            putIndex := putIndex % bufsz;
          }
          getIndex := putIndex;
          isFull := true;
        }
      }
      if getIndex >= bufsz {
        getIndex := 0;
      }
    }

    /** `_serial_dma_rx` with a buffer size that is not zero. */
    method DmaRx(data: array<Byte>, length: nat) returns (n: int)
      requires 0 < bufsz == buffer.Length && Sound(Index(), bufsz)
      requires Min(length, RecvedLen(Index(), bufsz)) <= data.Length && data != buffer
      modifies this`getIndex, this`isFull, data
      ensures n == Min(length, old(RecvedLen(Index(), bufsz)))
      ensures data[..n] == old(CopiedFrom(Index(), buffer[..], length)) && data[n..] == old(data[n..])
      ensures Index() == UpdateGet(old(Index()), bufsz, n)
    {
      hide UpdateGet, Truncate16;
      var stored := CalcRecvedLen();
      n := if length < stored then length else stored;
      OldestLaw(Index(), bufsz);
      CopyStored(data, n);
      UpdateGetIndex(n);
    }

    /** The copy of the `n` oldest bytes. */
    method CopyStored(data: array<Byte>, n: nat)
      requires 0 < bufsz == buffer.Length && Sound(Index(), bufsz)
      requires n <= RecvedLen(Index(), bufsz) && n <= data.Length && data != buffer
      modifies data
      ensures data[..n] == CopiedFrom(Index(), buffer[..], n) && data[n..] == old(data[n..])
    {
      OldestLaw(Index(), bufsz);
      if getIndex + n < bufsz {
        MemCopy(data, 0, buffer, getIndex, n);
      } else {
        CopyTwoPieces(data, bufsz - getIndex, n + getIndex - bufsz);
      }
    }

    /** The two copies of a read that reaches the end of the buffer. */
    method CopyTwoPieces(data: array<Byte>, n1: nat, n2: nat)
      requires bufsz == buffer.Length && getIndex + n1 == bufsz && n2 <= bufsz
      requires n1 + n2 <= data.Length && data != buffer
      modifies data
      ensures data[..n1 + n2] == buffer[getIndex..] + buffer[..n2]
      ensures data[n1 + n2..] == old(data[n1 + n2..])
    {
      MemCopy(data, 0, buffer, getIndex, n1);
      assert data[..n1] == buffer[getIndex..];
      label first:
      assert data[n1..] == old(data[n1..]);
      MemCopy(data, n1, buffer, 0, n2);
      assert data[..n1] == old@first(data[..n1]);
      assert data[n1..n1 + n2] == buffer[..n2];
      assert data[n1 + n2..] == old@first(data[n1..])[n2..];
    }

    /** The `RX_DMADONE` case of `rt_hw_serial_isr`; the result goes to `rx_indicate`. */
    method DmaDoneEvent(event: int) returns (indicated: int)
      requires 0 < bufsz
      modifies this
      ensures Index() == UpdatePut(old(Index()), bufsz, UnpackLength(event))
      ensures indicated == RecvedLen(Index(), bufsz)
    {
      UpdatePutIndex(UnpackLength(event));
      indicated := CalcRecvedLen();
    }

    // Interrupt mode

    /** One turn of the loop in the `RX_IND` case. */
    method StoreByte(ch: Byte)
      requires bufsz == buffer.Length && Consistent(Fifo())
      modifies this, buffer
      ensures Consistent(Fifo()) && Fifo() == Receive(old(Fifo()), ch)
      ensures StoredBytes(Fifo()) == DropOldest(old(StoredBytes(Fifo())), ch, Capacity(bufsz))
    {
      hide StoredBytes, Truncate16, DropOldest;
      ReceiveDropsOldest(Fifo(), ch);
      buffer[putIndex] := ch;
      putIndex := Truncate16(putIndex + 1);
      if putIndex >= bufsz {
        putIndex := 0;
      }
      if putIndex == getIndex {
        getIndex := Truncate16(getIndex + 1);
        isFull := true;
        if getIndex >= bufsz {
          getIndex := 0;
        }
      }
    }

    /**
     * The `RX_IND` case of `rt_hw_serial_isr`: of all bytes that `getc` delivers before its -1, the newest that fit are
     * stored behind what was there.
     */
    method RxIndEvent(incoming: seq<Byte>) returns (indicated: int)
      requires bufsz == buffer.Length && Consistent(Fifo())
      modifies this, buffer
      ensures Consistent(Fifo())
      ensures StoredBytes(Fifo()) == Newest(old(StoredBytes(Fifo())) + incoming, Capacity(bufsz))
      ensures 1 < bufsz ==> indicated == |StoredBytes(Fifo())|
    {
      hide StoredBytes, DropOldest, Newest;
      ghost var start := StoredBytes(Fifo());
      StoredFits(Fifo());
      NewestShort(start, Capacity(bufsz));
      assert start + incoming[..0] == start;
      for i := 0 to |incoming|
        invariant Consistent(Fifo())
        invariant StoredBytes(Fifo()) == Newest(start + incoming[..i], Capacity(bufsz))
      {
        NewestStep(start + incoming[..i], incoming[i], Capacity(bufsz));
        assert (start + incoming[..i]) + [incoming[i]] == start + incoming[..i + 1];
        StoreByte(incoming[i]);
      }
      assert incoming[..|incoming|] == incoming;
      if 1 < bufsz {
        CountsExact(Fifo());
      }
      indicated := if putIndex >= getIndex then putIndex - getIndex else bufsz - (getIndex - putIndex);
    }

    /** One interrupts-off turn of the loop of `_serial_int_rx`. */
    method FetchByte() returns (ch: Option<Byte>)
      requires bufsz == buffer.Length && Consistent(Fifo())
      modifies this`getIndex, this`isFull
      ensures Consistent(Fifo()) && Fifo() == TakeByte(old(Fifo()))
      ensures ch.None? <==> old(StoredBytes(Fifo())) == []
      ensures ch.None? ==> StoredBytes(Fifo()) == []
      ensures ch.Some? ==>
        ch.value == old(StoredBytes(Fifo()))[0] && StoredBytes(Fifo()) == old(StoredBytes(Fifo()))[1..]
    {
      TakeByteTakesOldest(Fifo());
      if getIndex == putIndex && !isFull {
        return None;
      }
      ch := Some(buffer[getIndex]);
      getIndex := Truncate16(getIndex + 1);
      if getIndex >= bufsz {
        getIndex := 0;
      }
      if isFull {
        isFull := false;
      }
    }

    /** A burst of received bytes, if any, and one turn of the loop after it. */
    method ReadAfter(burst: seq<Byte>) returns (ch: Option<Byte>)
      requires bufsz == buffer.Length && Consistent(Fifo())
      modifies this, buffer
      ensures Consistent(Fifo())
      ensures var now := Newest(old(StoredBytes(Fifo())) + burst, Capacity(bufsz));
        if now == [] then ch.None? && StoredBytes(Fifo()) == []
        else ch == Some(now[0]) && StoredBytes(Fifo()) == now[1..]
    {
      hide StoredBytes, TakeByte, DropOldest, Newest;
      StoredFits(Fifo());
      NewestShort(StoredBytes(Fifo()), Capacity(bufsz));
      assert StoredBytes(Fifo()) + [] == StoredBytes(Fifo());
      if burst != [] {
        var _ := RxIndEvent(burst);
      }
      ch := FetchByte();
    }

    /** `_serial_int_rx`; the bytes `arrivals[i]` are received before the i-th turn of the loop. */
    method IntRx(data: array<Byte>, length: nat, arrivals: seq<seq<Byte>>) returns (n: nat)
      requires bufsz == buffer.Length && Consistent(Fifo()) && length <= data.Length && data != buffer
      modifies this, buffer, data
      ensures Consistent(Fifo()) && n <= length
      ensures ReadTurns(old(StoredBytes(Fifo())), arrivals, length, Capacity(bufsz)) ==
        (StoredBytes(Fifo()), data[..n])
    {
      hide StoredBytes, ReadTurns, WithFront, Newest;
      ghost var whole := ReadTurns(StoredBytes(Fifo()), arrivals, length, Capacity(bufsz));
      var left := arrivals;
      n := 0;
      assert data[..0] == [];
      FrontOfNothing(whole);
      while n < length
        invariant n <= length && Consistent(Fifo())
        invariant whole == WithFront(data[..n], ReadTurns(StoredBytes(Fifo()), left, length - n, Capacity(bufsz)))
        decreases length - n
      {
        ReadTurn(StoredBytes(Fifo()), left, length - n, Capacity(bufsz));
        var ch := ReadAfter(Arriving(left));
        if ch.None? {
          FrontOnly(data[..n], []);
          return;
        }
        left := Later(left);
        data[n] := ch.value;
        n := n + 1;
        assert data[..n - 1] + [ch.value] == data[..n];
        WithFrontTwice(data[..n - 1], ch.value, ReadTurns(StoredBytes(Fifo()), left, length - n, Capacity(bufsz)));
      }
      ReadTurn(StoredBytes(Fifo()), left, 0, Capacity(bufsz));
      FrontOnly(data[..n], StoredBytes(Fifo()));
    }
  }

  class Uart {
    const serial: SerialRxFifo
    const settingRecvLen: nat
    var lastRecvIndex: nat

    /** `DMA_Configuration`: the channel runs around the whole FIFO buffer. */
    constructor (serial: SerialRxFifo)
      ensures this.serial == serial && settingRecvLen == serial.bufsz && lastRecvIndex == 0
    {
      this.serial := serial;
      settingRecvLen := serial.bufsz;
      lastRecvIndex := 0;
    }

    /** Hand an unsigned 32-bit length to the serial core through the event word. */
    method Notify(len: nat)
      requires 0 < serial.bufsz
      modifies serial
      ensures serial.Index() ==
        if len == 0 then old(serial.Index())
        else UpdatePut(old(serial.Index()), serial.bufsz, UnpackLength(PackEvent(RX_DMADONE, len)))
    {
      if len != 0 {
        var _ := serial.DmaDoneEvent(PackEvent(RX_DMADONE, len));
      }
    }

    /**
     * `dma_uart_rx_idle_isr`; `counter` is what the DMA channel still has to receive. If the done handler of
     * a wrap is late, the unsigned difference wraps and acts as a negative length.
     */
    method RxIdleIsr(counter: nat)
      requires 0 < settingRecvLen == serial.bufsz && counter <= settingRecvLen && lastRecvIndex <= settingRecvLen
      modifies this, serial
      ensures lastRecvIndex == settingRecvLen - counter
      ensures var d := lastRecvIndex - old(lastRecvIndex);
        serial.Index() == if d == 0 then old(serial.Index()) else UpdatePut(old(serial.Index()), serial.bufsz, d)
    {
      var total := settingRecvLen - counter;
      var len := (total - lastRecvIndex) % 0x1_0000_0000;
      DifferenceSurvives(RX_DMADONE, total - lastRecvIndex);
      lastRecvIndex := total;
      Notify(len);
    }

    /** `dma_rx_done_isr`. */
    method RxDoneIsr()
      requires 0 < settingRecvLen == serial.bufsz && lastRecvIndex <= settingRecvLen
      modifies this, serial
      ensures lastRecvIndex == 0
      ensures var len := settingRecvLen - old(lastRecvIndex);
        serial.Index() == if len == 0 then old(serial.Index()) else UpdatePut(old(serial.Index()), serial.bufsz, len)
    {
      var len := settingRecvLen - lastRecvIndex;
      LengthSurvivesExactly(RX_DMADONE, len);
      lastRecvIndex := 0;
      Notify(len);
    }
  }
}
