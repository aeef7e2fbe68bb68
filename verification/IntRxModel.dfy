/** The receive FIFO of rt_ext/serial.c in interrupt mode. */
module IntRxModel {
  import opened Common
  import opened SerialRxModel

  datatype IntFifo = IntFifo(index: RxIndex, buffer: seq<Byte>)

  datatype IntEvent = Interrupt(b: Byte) | ReadOne

  /** One step of an index, back to zero at the end. */
  function Next(i: U16, size: int): U16 {
    if Truncate16(i + 1) >= size then 0 else Truncate16(i + 1)
  }

  ghost predicate InRange(s: IntFifo) {
    0 < |s.buffer| < MODULUS_16 && s.index.put < |s.buffer| && s.index.get < |s.buffer|
  }

  /** The receive interrupt stores one byte and gives up the oldest one if the indices meet. */
  function Receive(s: IntFifo, b: Byte): IntFifo
    requires InRange(s)
  {
    var f := s.index;
    var put := Next(f.put, |s.buffer|);
    IntFifo(if put == f.get then RxIndex(put, Next(f.get, |s.buffer|), true) else RxIndex(put, f.get, f.isFull),
            s.buffer[f.put := b])
  }

  predicate NothingToRead(s: IntFifo) {
    s.index.get == s.index.put && !s.index.isFull
  }

  function TakeByte(s: IntFifo): IntFifo
    requires InRange(s)
  {
    if NothingToRead(s) then s else s.(index := RxIndex(s.index.put, Next(s.index.get, |s.buffer|), false))
  }

  /** The length handed to `rx_indicate`. */
  function IndicatedLength(s: IntFifo): int {
    if s.index.put >= s.index.get then s.index.put - s.index.get
    else |s.buffer| - (s.index.get - s.index.put)
  }

  /** Equal indices mean empty unless there is just one slot; the mark means all usable slots are taken. */
  ghost predicate Consistent(s: IntFifo) {
    && InRange(s)
    && (|s.buffer| > 1 && s.index.put == s.index.get ==> !s.index.isFull)
    && (|s.buffer| > 1 && s.index.isFull ==> IndicatedLength(s) == |s.buffer| - 1)
  }

  /** How many bytes the FIFO can hold. */
  function Capacity(size: nat): nat {
    Max(1, size - 1)
  }

  function StoredCount(s: IntFifo): int {
    if s.index.put == s.index.get then (if s.index.isFull then |s.buffer| else 0) else IndicatedLength(s)
  }

  /** The stored bytes, oldest first. */
  function StoredBytes(s: IntFifo): (r: seq<Byte>)
    requires InRange(s)
    ensures |r| == StoredCount(s)
    ensures forall i :: 0 <= i < |r| ==> r[i] == s.buffer[Around(s.index.get, i, |s.buffer|)]
  {
    if s.index.put > s.index.get then s.buffer[s.index.get..s.index.put]
    else if s.index.put == s.index.get && !s.index.isFull then []
    else s.buffer[s.index.get..] + s.buffer[..s.index.put]
  }

  lemma ReceiveIndices(s: IntFifo, b: Byte)
    requires Consistent(s)
    ensures Consistent(Receive(s, b)) && |Receive(s, b).buffer| == |s.buffer|
    ensures StoredCount(Receive(s, b)) == Min(StoredCount(s) + 1, Capacity(|s.buffer|))
    ensures Receive(s, b).index.get ==
      if StoredCount(s) == Capacity(|s.buffer|) then Around(s.index.get, 1, |s.buffer|) else s.index.get
  {
    hide Truncate16;
  }

  /** How many stored bytes an interrupt gives up. */
  function GivenUp(s: IntFifo): int {
    if StoredCount(s) == Capacity(|s.buffer|) then 1 else 0
  }

  lemma ReceivedByte(s: IntFifo, b: Byte, i: nat)
    requires Consistent(s) && Consistent(Receive(s, b)) && i < StoredCount(Receive(s, b))
    ensures var r := Receive(s, b);
      r.buffer[Around(r.index.get, i, |s.buffer|)] ==
        if i == StoredCount(r) - 1 then b else s.buffer[Around(s.index.get, i + GivenUp(s), |s.buffer|)]
  {
    hide Truncate16;
    ReceiveIndices(s, b);
  }

  /** A received byte is appended; a FIFO at capacity loses its oldest byte. */
  lemma ReceiveDropsOldest(s: IntFifo, b: Byte)
    requires Consistent(s)
    ensures Consistent(Receive(s, b)) && |Receive(s, b).buffer| == |s.buffer|
    ensures StoredBytes(Receive(s, b)) == DropOldest(StoredBytes(s), b, Capacity(|s.buffer|))
  {
    ReceiveIndices(s, b);
    var want := DropOldest(StoredBytes(s), b, Capacity(|s.buffer|));
    hide StoredBytes, Receive, Around, Capacity;
    var r := Receive(s, b);
    assert |want| == StoredCount(r) && want[|want| - 1] == b;
    forall i | 0 <= i < |want|
      ensures StoredBytes(r)[i] == want[i]
    {
      ReceivedByte(s, b, i);
      if i < |want| - 1 {
        assert want[i] == StoredBytes(s)[i + GivenUp(s)];
      }
    }
  }

  /** A read takes the oldest byte, and finds nothing exactly when nothing is stored. */
  lemma TakeByteTakesOldest(s: IntFifo)
    requires Consistent(s)
    ensures Consistent(TakeByte(s)) && TakeByte(s).buffer == s.buffer
    ensures NothingToRead(s) <==> StoredBytes(s) == []
    ensures !NothingToRead(s) ==>
      s.buffer[s.index.get] == StoredBytes(s)[0] && StoredBytes(TakeByte(s)) == StoredBytes(s)[1..]
  {
    hide Truncate16;
    var r := TakeByte(s);
    if !NothingToRead(s) {
      assert StoredCount(r) == StoredCount(s) - 1;
      forall i | 0 <= i < StoredCount(r)
        ensures StoredBytes(r)[i] == StoredBytes(s)[1..][i]
      {
        hide StoredBytes;
        assert StoredBytes(s)[i + 1] == s.buffer[Around(s.index.get, i + 1, |s.buffer|)];
      }
    }
  }

  // The queue the FIFO stands for

  /** A queue that drops its oldest byte when full, with the bytes read from it and how many it dropped. */
  datatype ByteQueue = ByteQueue(stored: seq<Byte>, read: seq<Byte>, dropped: nat)

  function QueueStep(q: ByteQueue, e: IntEvent, capacity: nat): ByteQueue
    requires 0 < capacity
  {
    match e
    case Interrupt(b) =>
      ByteQueue(DropOldest(q.stored, b, capacity), q.read, q.dropped + if |q.stored| >= capacity then 1 else 0)
    case ReadOne => if q.stored == [] then q else ByteQueue(q.stored[1..], q.read + [q.stored[0]], q.dropped)
  }

  function QueueRun(es: seq<IntEvent>, capacity: nat): ByteQueue
    requires 0 < capacity
  {
    if es == [] then ByteQueue([], [], 0) else QueueStep(QueueRun(es[..|es| - 1], capacity), es[|es| - 1], capacity)
  }

  /** Every byte that arrived in a run. */
  function Received(es: seq<IntEvent>): seq<Byte> {
    if es == [] then [] else
    Received(es[..|es| - 1]) + (if es[|es| - 1].Interrupt? then [es[|es| - 1].b] else [])
  }

  /**
   * The queue holds the newest received bytes; each received byte was read, is stored or was dropped; and none was
   * dropped exactly if the bytes read and the bytes stored are the received ones in order.
   */
  ghost predicate Accounts(q: ByteQueue, received: seq<Byte>, capacity: nat) {
    && |q.stored| <= capacity && |received| == |q.read| + |q.stored| + q.dropped
    && q.stored == received[|received| - |q.stored|..]
    && (q.dropped == 0 <==> received == q.read + q.stored)
  }

  lemma ArrivalAccounts(q: ByteQueue, received: seq<Byte>, b: Byte, capacity: nat)
    requires 0 < capacity && Accounts(q, received, capacity)
    ensures Accounts(QueueStep(q, Interrupt(b), capacity), received + [b], capacity)
  {
    assert (q.read + q.stored) + [b] == q.read + (q.stored + [b]);
    if |q.stored| >= capacity {
      assert received[|received| - |q.stored|..][1..] == received[|received| - |q.stored| + 1..];
    }
  }

  lemma ReadAccounts(q: ByteQueue, received: seq<Byte>, capacity: nat)
    requires 0 < capacity && Accounts(q, received, capacity)
    ensures Accounts(QueueStep(q, ReadOne, capacity), received, capacity)
  {
    if q.stored != [] {
      assert q.read + q.stored == (q.read + [q.stored[0]]) + q.stored[1..];
    }
  }

  /** So after every run. */
  lemma {:induction false} QueueAccounts(es: seq<IntEvent>, capacity: nat)
    requires 0 < capacity
    ensures Accounts(QueueRun(es, capacity), Received(es), capacity)
  {
    if es != [] {
      QueueAccounts(es[..|es| - 1], capacity);
      var q, received := QueueRun(es[..|es| - 1], capacity), Received(es[..|es| - 1]);
      match es[|es| - 1]
      case Interrupt(b) => ArrivalAccounts(q, received, b, capacity);
      case ReadOne => ReadAccounts(q, received, capacity);
    }
  }

  /** The FIFO with everything read from it. */
  datatype IntLog = IntLog(fifo: IntFifo, read: seq<Byte>)

  function IntStep(l: IntLog, e: IntEvent): IntLog
    requires InRange(l.fifo)
  {
    match e
    case Interrupt(b) => IntLog(Receive(l.fifo, b), l.read)
    case ReadOne =>
      if NothingToRead(l.fifo) then l else IntLog(TakeByte(l.fifo), l.read + [l.fifo.buffer[l.fifo.index.get]])
  }

  ghost predicate Refines(l: IntLog, q: ByteQueue) {
    Consistent(l.fifo) && StoredBytes(l.fifo) == q.stored && l.read == q.read
  }

  lemma IntStepRefines(l: IntLog, q: ByteQueue, e: IntEvent)
    requires Refines(l, q)
    ensures Refines(IntStep(l, e), QueueStep(q, e, Capacity(|l.fifo.buffer|)))
    ensures |IntStep(l, e).fifo.buffer| == |l.fifo.buffer|
  {
    hide StoredBytes, Receive, TakeByte, InRange, Consistent;
    match e
    case Interrupt(b) => ReceiveDropsOldest(l.fifo, b);
    case ReadOne => TakeByteTakesOldest(l.fifo);
  }

  function IntExec(l: IntLog, es: seq<IntEvent>): (r: IntLog)
    requires Consistent(l.fifo)
    ensures Consistent(r.fifo) && |r.fifo.buffer| == |l.fifo.buffer|
  {
    if es == [] then l else
    var before := IntExec(l, es[..|es| - 1]);
    IntStepRefines(before, ByteQueue(StoredBytes(before.fifo), before.read, 0), es[|es| - 1]);
    IntStep(before, es[|es| - 1])
  }

  function EmptyLog(buffer: seq<Byte>): IntLog {
    IntLog(IntFifo(RxIndex(0, 0, false), buffer), [])
  }

  lemma {:induction false} RunRefines(buffer: seq<Byte>, es: seq<IntEvent>)
    requires 0 < |buffer| < MODULUS_16
    ensures Consistent(EmptyLog(buffer).fifo)
    ensures Refines(IntExec(EmptyLog(buffer), es), QueueRun(es, Capacity(|buffer|)))
  {
    hide Refines, IntStep, QueueStep;
    EmptyRefines(buffer);
    if es != [] {
      RunRefines(buffer, es[..|es| - 1]);
      IntStepRefines(IntExec(EmptyLog(buffer), es[..|es| - 1]), QueueRun(es[..|es| - 1], Capacity(|buffer|)),
                     es[|es| - 1]);
    }
  }

  lemma EmptyRefines(buffer: seq<Byte>)
    requires 0 < |buffer| < MODULUS_16
    ensures Refines(EmptyLog(buffer), ByteQueue([], [], 0))
  {
  }

  /**
   * Under every interleaving of interrupts and reads the FIFO holds, and its readers got, what the drop-oldest queue
   * holds and gives; with two slots or more its mark and its length are exact.
   */
  lemma IntFifoRefinesQueue(buffer: seq<Byte>, es: seq<IntEvent>)
    requires 0 < |buffer| < MODULUS_16
    ensures Consistent(EmptyLog(buffer).fifo)
    ensures var l, q := IntExec(EmptyLog(buffer), es), QueueRun(es, Capacity(|buffer|));
      && StoredBytes(l.fifo) == q.stored && l.read == q.read
      && (|buffer| > 1 ==>
        && IndicatedLength(l.fifo) == |q.stored|
        && (l.fifo.index.put == l.fifo.index.get <==> q.stored == [])
        && (l.fifo.index.isFull ==> |q.stored| == |buffer| - 1))
  {
    RunRefines(buffer, es);
    var l := IntExec(EmptyLog(buffer), es);
    hide IntExec, IntStep, StoredBytes, QueueRun;
    if |buffer| > 1 {
      CountsExact(l.fifo);
    }
  }

  lemma CountsExact(s: IntFifo)
    requires Consistent(s) && |s.buffer| > 1
    ensures IndicatedLength(s) == |StoredBytes(s)|
    ensures s.index.put == s.index.get <==> StoredBytes(s) == []
    ensures s.index.isFull ==> |StoredBytes(s)| == |s.buffer| - 1
  {
    hide StoredBytes;
  }

  /** With a single slot, one received byte is stored and not indicated. */
  lemma SingleSlotHidesAByte(buffer: seq<Byte>) returns (es: seq<IntEvent>)
    requires |buffer| == 1
    ensures Consistent(EmptyLog(buffer).fifo)
    ensures var l := IntExec(EmptyLog(buffer), es); IndicatedLength(l.fifo) == 0 && |StoredBytes(l.fifo)| == 1
  {
    es := [Interrupt(0)];
    assert es[..0] == [];
    assert IntExec(EmptyLog(buffer), es) == IntStep(EmptyLog(buffer), Interrupt(0));
  }

  /** The indicated length is the stored one in every run exactly when there are two slots or more. */
  lemma IndicationExactly(buffer: seq<Byte>)
    requires 0 < |buffer| < MODULUS_16
    ensures Consistent(EmptyLog(buffer).fifo)
    ensures (forall es :: IndicatedLength(IntExec(EmptyLog(buffer), es).fifo) ==
                          |StoredBytes(IntExec(EmptyLog(buffer), es).fifo)|)
      <==> |buffer| > 1
  {
    EmptyRefines(buffer);
    hide IntStep, StoredBytes, IndicatedLength, Capacity;
    if |buffer| > 1 {
      forall es
        ensures IndicatedLength(IntExec(EmptyLog(buffer), es).fifo) ==
                |StoredBytes(IntExec(EmptyLog(buffer), es).fifo)|
      {
        IntFifoRefinesQueue(buffer, es);
      }
    } else {
      var es := SingleSlotHidesAByte(buffer);
    }
  }

  // A whole read with interrupts between its turns

  /** The burst that comes before the next turn, and the later ones. */
  function Arriving(arrivals: seq<seq<Byte>>): seq<Byte> {
    if arrivals == [] then [] else arrivals[0]
  }

  function Later(arrivals: seq<seq<Byte>>): seq<seq<Byte>> {
    if arrivals == [] then [] else arrivals[1..]
  }

  function WithFront(front: seq<Byte>, r: (seq<Byte>, seq<Byte>)): (seq<Byte>, seq<Byte>) {
    (r.0, front + r.1)
  }

  /** What is left in the queue and what was read, after a read of up to `length` bytes between bursts. */
  function ReadTurns(q: seq<Byte>, arrivals: seq<seq<Byte>>, length: nat, capacity: nat): (seq<Byte>, seq<Byte>)
    requires 0 < capacity
    decreases length
  {
    if length == 0 then (q, []) else
    var now := Newest(q + Arriving(arrivals), capacity);
    if now == [] then ([], [])
    else WithFront([now[0]], ReadTurns(now[1..], Later(arrivals), length - 1, capacity))
  }

  lemma ReadTurn(q: seq<Byte>, arrivals: seq<seq<Byte>>, length: nat, capacity: nat)
    requires 0 < capacity
    ensures ReadTurns(q, arrivals, 0, capacity) == (q, [])
    ensures length > 0 ==>
      var now := Newest(q + Arriving(arrivals), capacity);
      ReadTurns(q, arrivals, length, capacity) ==
        if now == [] then ([], [])
        else WithFront([now[0]], ReadTurns(now[1..], Later(arrivals), length - 1, capacity))
  {
  }

  lemma WithFrontTwice(front: seq<Byte>, b: Byte, r: (seq<Byte>, seq<Byte>))
    ensures WithFront(front, WithFront([b], r)) == WithFront(front + [b], r)
  {
    assert front + ([b] + r.1) == (front + [b]) + r.1;
  }

  lemma FrontOnly(front: seq<Byte>, rest: seq<Byte>)
    ensures WithFront(front, (rest, [])) == (rest, front)
  {
    assert front + [] == front;
  }

  lemma FrontOfNothing(r: (seq<Byte>, seq<Byte>))
    ensures WithFront([], r) == r
  {
    assert [] + r.1 == r.1;
  }

  /** With no interrupts in between, a read returns the oldest bytes and leaves the rest. */
  lemma {:induction false} QuietRead(q: seq<Byte>, length: nat, capacity: nat)
    requires 0 < capacity && |q| <= capacity
    ensures ReadTurns(q, [], length, capacity) == (q[Min(length, |q|)..], q[..Min(length, |q|)])
    decreases length
  {
    assert q + [] == q;
    if length > 0 && q != [] {
      QuietRead(q[1..], length - 1, capacity);
      var n := Min(length, |q|);
      assert q[1..][n - 1..] == q[n..] && [q[0]] + q[1..][..n - 1] == q[..n];
    }
  }

  /** The stored bytes never exceed the capacity. */
  lemma StoredFits(s: IntFifo)
    requires Consistent(s)
    ensures |StoredBytes(s)| <= Capacity(|s.buffer|)
  {
  }

  /** A burst as single receive events. */
  function Bursts(s: seq<Byte>): seq<IntEvent> {
    if s == [] then [] else Bursts(s[..|s| - 1]) + [Interrupt(s[|s| - 1])]
  }

  /** The bursts and turns of a read as single events, and the bytes of those bursts. */
  function TurnEvents(arrivals: seq<seq<Byte>>, turns: nat): seq<IntEvent> {
    if turns == 0 then [] else Bursts(Arriving(arrivals)) + [ReadOne] + TurnEvents(Later(arrivals), turns - 1)
  }

  function Arrived(arrivals: seq<seq<Byte>>, turns: nat): seq<Byte> {
    if turns == 0 then [] else Arriving(arrivals) + Arrived(Later(arrivals), turns - 1)
  }

  lemma RunSnoc(es: seq<IntEvent>, e: IntEvent, capacity: nat)
    requires 0 < capacity
    ensures QueueRun(es + [e], capacity) == QueueStep(QueueRun(es, capacity), e, capacity)
    ensures Received(es + [e]) == Received(es) + if e.Interrupt? then [e.b] else []
  {
    assert (es + [e])[..|es|] == es;
  }

  lemma Regroup<T>(a: seq<T>, b: seq<T>, c: seq<T>)
    ensures (a + b) + c == a + (b + c)
  {
  }

  /** What a whole burst leaves in the queue: the newest of what was stored and what came. */
  lemma {:induction false} BurstKeepsNewest(es: seq<IntEvent>, s: seq<Byte>, capacity: nat)
    requires 0 < capacity
    ensures var q, r := QueueRun(es, capacity), QueueRun(es + Bursts(s), capacity);
      && r.stored == Newest(q.stored + s, capacity) && r.read == q.read
      && Received(es + Bursts(s)) == Received(es) + s
  {
    hide QueueRun, Received, Newest, DropOldest;
    var q := QueueRun(es, capacity);
    if s == [] {
      QueueAccounts(es, capacity);
      NewestShort(q.stored, capacity);
      assert es + Bursts(s) == es && q.stored + s == q.stored && Received(es) + s == Received(es);
    } else {
      var front, b := s[..|s| - 1], s[|s| - 1];
      BurstKeepsNewest(es, front, capacity);
      Regroup(es, Bursts(front), [Interrupt(b)]);
      RunSnoc(es + Bursts(front), Interrupt(b), capacity);
      NewestStep(q.stored + front, b, capacity);
      Regroup(q.stored, front, [b]);
      Regroup(Received(es), front, [b]);
      assert front + [b] == s;
    }
  }

  lemma OneTurnIsRun(es: seq<IntEvent>, burst: seq<Byte>, capacity: nat)
    requires 0 < capacity
    ensures var q, r := QueueRun(es, capacity), QueueRun(es + Bursts(burst) + [ReadOne], capacity);
      var now := Newest(q.stored + burst, capacity);
      && Received(es + Bursts(burst) + [ReadOne]) == Received(es) + burst
      && if now == [] then r.stored == [] && r.read == q.read
         else r.stored == now[1..] && r.read == q.read + [now[0]]
  {
    BurstKeepsNewest(es, burst, capacity);
    RunSnoc(es + Bursts(burst), ReadOne, capacity);
    hide QueueRun, Received;
  }

  function TurnsOf(read: nat, length: nat): nat {
    if read < length then read + 1 else length
  }

  /** A read that left `rest` and returned `read` is a run of the queue that ends there. */
  ghost predicate IsRun(es: seq<IntEvent>, arrivals: seq<seq<Byte>>, turns: nat, capacity: nat,
                        rest: seq<Byte>, read: seq<Byte>)
    requires 0 < capacity
  {
    var q, r := QueueRun(es, capacity), QueueRun(es + TurnEvents(arrivals, turns), capacity);
    && r.stored == rest && r.read == q.read + read
    && Received(es + TurnEvents(arrivals, turns)) == Received(es) + Arrived(arrivals, turns)
  }

  lemma NoTurn(es: seq<IntEvent>, arrivals: seq<seq<Byte>>, capacity: nat)
    requires 0 < capacity
    ensures IsRun(es, arrivals, 0, capacity, QueueRun(es, capacity).stored, [])
  {
    hide QueueRun, Received;
    assert es + [] == es && QueueRun(es, capacity).read + [] == QueueRun(es, capacity).read;
    assert Received(es) + [] == Received(es);
  }

  lemma LastTurn(es: seq<IntEvent>, arrivals: seq<seq<Byte>>, capacity: nat)
    requires 0 < capacity && Newest(QueueRun(es, capacity).stored + Arriving(arrivals), capacity) == []
    ensures IsRun(es, arrivals, 1, capacity, [], [])
  {
    OneTurnIsRun(es, Arriving(arrivals), capacity);
    hide QueueRun, Received, Newest, Bursts;
    assert es + TurnEvents(arrivals, 1) == es + Bursts(Arriving(arrivals)) + [ReadOne];
    assert Arrived(arrivals, 1) == Arriving(arrivals);
    assert QueueRun(es, capacity).read + [] == QueueRun(es, capacity).read;
  }

  lemma FirstTurn(es: seq<IntEvent>, arrivals: seq<seq<Byte>>, k: nat, capacity: nat, rest: seq<Byte>, read: seq<Byte>)
    requires 0 < capacity && Newest(QueueRun(es, capacity).stored + Arriving(arrivals), capacity) != []
    requires IsRun(es + Bursts(Arriving(arrivals)) + [ReadOne], Later(arrivals), k, capacity, rest, read)
    ensures var now := Newest(QueueRun(es, capacity).stored + Arriving(arrivals), capacity);
      IsRun(es, arrivals, k + 1, capacity, rest, [now[0]] + read)
  {
    var burst := Arriving(arrivals);
    OneTurnIsRun(es, burst, capacity);
    hide QueueRun, Received, Newest, Bursts;
    var now := Newest(QueueRun(es, capacity).stored + burst, capacity);
    Regroup(es, Bursts(burst), [ReadOne]);
    Regroup(es, Bursts(burst) + [ReadOne], TurnEvents(Later(arrivals), k));
    Regroup(QueueRun(es, capacity).read, [now[0]], read);
    Regroup(Received(es), burst, Arrived(Later(arrivals), k));
  }

  /**
   * A read with bursts between its turns, which ends early only at an empty queue, is that many steps of a run of
   * the drop-oldest queue: it leaves and returns what the run does.
   */
  lemma {:induction false} ReadTurnsIsRun(es: seq<IntEvent>, arrivals: seq<seq<Byte>>, length: nat, capacity: nat)
    requires 0 < capacity
    ensures var (rest, read) := ReadTurns(QueueRun(es, capacity).stored, arrivals, length, capacity);
      && |read| <= length && (|read| < length ==> rest == [])
      && IsRun(es, arrivals, TurnsOf(|read|, length), capacity, rest, read)
    decreases length
  {
    hide QueueRun, Received, Newest, Bursts, IsRun;
    if length == 0 {
      NoTurn(es, arrivals, capacity);
    } else {
      var now := Newest(QueueRun(es, capacity).stored + Arriving(arrivals), capacity);
      if now == [] {
        LastTurn(es, arrivals, capacity);
      } else {
        OneTurnIsRun(es, Arriving(arrivals), capacity);
        var (rest, read) := ReadTurns(now[1..], Later(arrivals), length - 1, capacity);
        ReadTurnsIsRun(es + Bursts(Arriving(arrivals)) + [ReadOne], Later(arrivals), length - 1, capacity);
        FirstTurn(es, arrivals, TurnsOf(|read|, length - 1), capacity, rest, read);
      }
    }
  }
}
