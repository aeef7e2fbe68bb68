/** The receive FIFO of rt_ext/serial.c in DMA mode, fed by the interrupt handlers of rt_ext/usart.c. */
module SerialRxModel {
  import opened Common

  /** `put_index`, `get_index` and `is_full` of the receive FIFO. */
  datatype RxIndex = RxIndex(put: U16, get: U16, isFull: bool)

  /** `_serial_fifo_calc_recved_len`. */
  function RecvedLen(f: RxIndex, bufsz: U16): int {
    if f.put == f.get then (if f.isFull then bufsz else 0)
    else if f.put > f.get then f.put - f.get
    else bufsz - (f.get - f.put)
  }

  /** `rt_dma_recv_update_get_index`. */
  function UpdateGet(f: RxIndex, bufsz: U16, len: nat): RxIndex
    requires 0 < bufsz
  {
    var get := Truncate16(f.get + len);
    RxIndex(f.put, if get > bufsz then get % bufsz else get, f.isFull && len == 0)
  }

  /** `rt_dma_recv_update_put_index`; a negative length wraps with the 16-bit index. */
  function UpdatePut(f: RxIndex, bufsz: U16, len: int): RxIndex
    requires 0 < bufsz
  {
    var put := Truncate16(f.put + len);
    var moved :=
      if f.get <= f.put then
        if put >= bufsz then
          var wrapped := put % bufsz;
          if wrapped >= f.get then RxIndex(wrapped, wrapped, true) else RxIndex(wrapped, f.get, f.isFull)
        else RxIndex(put, f.get, f.isFull)
      else
        if put >= f.get then
          var wrapped := if put >= bufsz then put % bufsz else put;
          RxIndex(wrapped, wrapped, true)
        else RxIndex(put, f.get, f.isFull);
    if moved.get >= bufsz then moved.(get := 0) else moved
  }

  /** `get_index` may rest at the size, but then the FIFO is not marked full; the mark may be stale elsewhere. */
  predicate Sound(f: RxIndex, bufsz: U16) {
    && f.put < bufsz && f.get <= bufsz
    && (f.get == bufsz ==> !f.isFull)
  }

  predicate IsFull(f: RxIndex) {
    f.put == f.get && f.isFull
  }

  /** Adding within one turn of the buffer. */
  function Around(at: int, n: int, bufsz: int): int {
    if at + n < bufsz then at + n else at + n - bufsz
  }

  /** Where the oldest stored byte is. */
  function Oldest(f: RxIndex, bufsz: U16): int {
    if f.get == bufsz then 0 else f.get
  }

  lemma ModOnce(a: int, n: int)
    requires 0 < n && 0 <= a < 2 * n
    ensures a % n == if a < n then a else a - n
  {
    ModUnique(a, n, if a < n then 0 else 1, if a < n then a else a - n);
  }

  /**
   * The exact effect of a report: the put index advances around the buffer; the count grows
   * up to the size, except that a full FIFO keeps only the newly reported bytes.
   */
  lemma PutLaw(f: RxIndex, bufsz: U16, len: nat)
    requires Sound(f, bufsz) && bufsz <= 0x8000 && 0 < len <= bufsz
    ensures var r := UpdatePut(f, bufsz, len);
      && Sound(r, bufsz) && r.get < bufsz
      && r.put == Around(f.put, len, bufsz)
      && RecvedLen(r, bufsz) == if IsFull(f) then len else Min(RecvedLen(f, bufsz) + len, bufsz)
  {
    hide Truncate16;
    ModOnce(f.put + len, bufsz);
  }

  /** A read of stored bytes takes them off the count and leaves the put index alone. */
  lemma GetLaw(f: RxIndex, bufsz: U16, len: nat)
    requires Sound(f, bufsz) && bufsz <= 0x8000 && len <= RecvedLen(f, bufsz)
    ensures var r := UpdateGet(f, bufsz, len);
      && Sound(r, bufsz) && r.put == f.put
      && RecvedLen(r, bufsz) == RecvedLen(f, bufsz) - len
  {
    hide Truncate16;
    ModOnce(f.get + len, bufsz);
  }

  /** The count fits and the oldest byte lies that many places behind the put index. */
  lemma OldestLaw(f: RxIndex, bufsz: U16)
    requires Sound(f, bufsz)
    ensures 0 <= RecvedLen(f, bufsz) <= bufsz
    ensures f.put == Around(Oldest(f, bufsz), RecvedLen(f, bufsz), bufsz)
  {
  }

  /** Both index additions as C computes them before truncation. */
  predicate Fits16(f: RxIndex, bufsz: U16, len: nat) {
    && f.put + len < MODULUS_16
    && (len <= RecvedLen(f, bufsz) ==> f.get + len < MODULUS_16)
  }

  /** No 16-bit addition overflows exactly for sizes up to 32768. */
  lemma NoOverflowExactly(bufsz: U16)
    requires 0 < bufsz
    ensures (forall f: RxIndex, len: nat :: Sound(f, bufsz) && 0 < len <= bufsz ==> Fits16(f, bufsz, len))
      <==> bufsz <= 0x8000
  {
    if bufsz <= 0x8000 {
      forall f: RxIndex, len: nat | Sound(f, bufsz) && 0 < len <= bufsz
        ensures Fits16(f, bufsz, len)
      {
      }
    } else {
      var f := RxIndex(bufsz - 1, 0, false);
      assert Sound(f, bufsz) && !Fits16(f, bufsz, bufsz);
    }
  }

  // The event word that carries a length from the handler to the serial core

  /** `RT_SERIAL_EVENT_RX_DMADONE | (recv_len << 8)` as a signed 32-bit `int`; the event code is below 256. */
  function PackEvent(code: Byte, len: nat): int {
    var word := (code as int + len * 0x100) % 0x1_0000_0000;
    if word < 0x8000_0000 then word else word - 0x1_0000_0000
  }

  /** `(event & ~0xff) >> 8`, an arithmetic shift. */
  function UnpackLength(event: int): int {
    event / 0x100
  }

  /** A reported length survives the event word exactly when it is below 2^23. */
  lemma LengthSurvivesExactly(code: Byte, len: nat)
    ensures UnpackLength(PackEvent(code, len)) == len <==> len < 0x80_0000
  {
    if len < 0x100_0000 {
      ModUnique(code as int + len * 0x100, 0x1_0000_0000, 0, code as int + len * 0x100);
    }
  }

  /** A small difference that was negative comes out of the event word negative again. */
  lemma DifferenceSurvives(code: Byte, d: int)
    requires -0x80_0000 <= d < 0x80_0000
    ensures UnpackLength(PackEvent(code, d % 0x1_0000_0000)) == d
  {
    ModUnique(d, 0x1_0000_0000, if d < 0 then -1 else 0, if d < 0 then d + 0x1_0000_0000 else d);
    var word := code as int + (d % 0x1_0000_0000) * 0x100;
    var signed := code as int + d * 0x100;
    ModUnique(word, 0x1_0000_0000, if d < 0 then 0x100 - 1 else 0, if d < 0 then signed + 0x1_0000_0000 else signed);
  }

  // The DMA channel, the two handlers and the reader

  /**
   * `position` is `setting_recv_len` minus the DMA counter and `lastRecv` is `last_recv_index`.
   * The stream of all received bytes, the number of reported ones and the returned ones are history.
   */
  datatype Receiver = Receiver(
    index: RxIndex, buffer: seq<Byte>,
    position: nat, wrapPending: bool, lastRecv: nat,
    stream: seq<Byte>, reported: nat, reports: seq<nat>)

  datatype RxEvent =
    | DmaByte(b: Byte)
    | Idle
    | Done
    | ReadBytes(length: nat)

  function Fresh(buffer: seq<Byte>): Receiver {
    Receiver(RxIndex(0, 0, false), buffer, 0, false, 0, [], 0, [])
  }

  ghost predicate SizeFits(s: Receiver) {
    0 < |s.buffer| <= 0x8000
  }

  /** A handler reports nothing when the length is zero. */
  function Report(s: Receiver, len: nat): Receiver
    requires SizeFits(s)
  {
    if len == 0 then s else
      s.(index := UpdatePut(s.index, |s.buffer|, len), reported := s.reported + len, reports := s.reports + [len])
  }

  /** The length the idle handler computes in 32-bit unsigned arithmetic. */
  function IdleLength(s: Receiver): nat {
    (s.position - s.lastRecv) % 0x1_0000_0000
  }

  /** The bytes `_serial_dma_rx` copies out, in two pieces if the end is reached. */
  function CopiedFrom(f: RxIndex, buffer: seq<Byte>, length: nat): seq<Byte>
    requires 0 < |buffer| < MODULUS_16 && Sound(f, |buffer|)
  {
    OldestLaw(f, |buffer|);
    var n := Min(length, RecvedLen(f, |buffer|));
    if f.get + n < |buffer| then buffer[f.get..f.get + n]
    else buffer[f.get..] + buffer[..n + f.get - |buffer|]
  }

  function Copied(s: Receiver, length: nat): seq<Byte>
    requires SizeFits(s) && Sound(s.index, |s.buffer|)
  {
    CopiedFrom(s.index, s.buffer, length)
  }

  /**
   * The timing the driver relies on: the done handler runs after each wrap,
   * before a later idle handler and before the next wrap.
   */
  predicate RxEnabled(s: Receiver, e: RxEvent) {
    match e
    case DmaByte(_) => !(s.wrapPending && s.position + 1 == |s.buffer|)
    case Idle => !s.wrapPending
    case Done => s.wrapPending
    case ReadBytes(_) => true
  }

  function RxApply(s: Receiver, e: RxEvent): Receiver
    requires SizeFits(s) && s.position < |s.buffer| && s.lastRecv < |s.buffer| && Sound(s.index, |s.buffer|)
  {
    if !RxEnabled(s, e) then s else
    match e
    case DmaByte(b) =>
      var wraps := s.position + 1 == |s.buffer|;
      s.(buffer := s.buffer[s.position := b], stream := s.stream + [b],
         position := if wraps then 0 else s.position + 1, wrapPending := s.wrapPending || wraps)
    case Idle => Report(s, IdleLength(s)).(lastRecv := s.position)
    case Done => Report(s, |s.buffer| - s.lastRecv).(lastRecv := 0, wrapPending := false)
    case ReadBytes(length) =>
      OldestLaw(s.index, |s.buffer|);
      s.(index := UpdateGet(s.index, |s.buffer|, Min(length, RecvedLen(s.index, |s.buffer|))))
  }

  /** Bytes in the buffer that no handler has reported yet. */
  function Unreported(s: Receiver): int {
    |s.stream| - s.reported
  }

  function Count(s: Receiver): int
    requires SizeFits(s)
  {
    RecvedLen(s.index, |s.buffer|)
  }

  /** Lengths are accounted: the put index follows the handlers and the reports follow the position. */
  ghost predicate Accounted(s: Receiver) {
    && SizeFits(s) && Sound(s.index, |s.buffer|)
    && s.position < |s.buffer| && s.lastRecv < |s.buffer|
    && s.index.put == s.lastRecv
    && Count(s) <= s.reported
    && Unreported(s) == s.position - s.lastRecv + (if s.wrapPending then |s.buffer| else 0)
    && 0 <= Unreported(s)
    && Total(s.reports) == s.reported
    && forall i :: 0 <= i < |s.reports| ==> 0 < s.reports[i] <= |s.buffer|
  }

  function Total(lens: seq<nat>): nat {
    if lens == [] then 0 else Total(lens[..|lens| - 1]) + lens[|lens| - 1]
  }

  /** The k-th last received byte is k places before the position. */
  predicate HoldsByte(buffer: seq<Byte>, position: nat, stream: seq<Byte>, k: nat)
    requires position < |buffer| && 1 <= k <= |buffer| && k <= |stream|
  {
    buffer[Around(position, |buffer| - k, |buffer|)] == stream[|stream| - k]
  }

  ghost predicate HoldsStream(buffer: seq<Byte>, position: nat, stream: seq<Byte>)
    requires position < |buffer|
  {
    forall k :: 1 <= k <= |buffer| && k <= |stream| ==> HoldsByte(buffer, position, stream, k)
  }

  ghost predicate Receiving(s: Receiver) {
    Accounted(s) && HoldsStream(s.buffer, s.position, s.stream)
  }

  lemma ByteKeepsStream(buffer: seq<Byte>, position: nat, stream: seq<Byte>, b: Byte)
    requires position < |buffer| && HoldsStream(buffer, position, stream)
    ensures HoldsStream(buffer[position := b], if position + 1 == |buffer| then 0 else position + 1, stream + [b])
  {
    var next := if position + 1 == |buffer| then 0 else position + 1;
    var written, longer := buffer[position := b], stream + [b];
    forall k | 1 <= k <= |written| && k <= |longer|
      ensures HoldsByte(written, next, longer, k)
    {
      if k > 1 {
        assert HoldsByte(buffer, position, stream, k - 1);
        assert Around(next, |buffer| - k, |buffer|) == Around(position, |buffer| - (k - 1), |buffer|);
      }
    }
  }

  lemma ReportKeepsAccounts(s: Receiver, len: nat)
    requires Accounted(s) && len <= |s.buffer|
    ensures var r := Report(s, len);
      && Sound(r.index, |r.buffer|) && Count(r) <= r.reported
      && r.index.put == Around(s.index.put, len, |s.buffer|)
      && Total(r.reports) == r.reported == s.reported + len
      && forall i :: 0 <= i < |r.reports| ==> 0 < r.reports[i] <= |s.buffer|
  {
    if len > 0 {
      PutLaw(s.index, |s.buffer|, len);
      assert (s.reports + [len])[..|s.reports|] == s.reports;
    }
  }

  lemma IdleKeepsAccounts(s: Receiver)
    requires Accounted(s) && !s.wrapPending
    ensures Accounted(RxApply(s, Idle)) && Unreported(RxApply(s, Idle)) == 0
  {
    hide UpdatePut, RecvedLen, Total;
    ModUnique(s.position - s.lastRecv, 0x1_0000_0000, 0, s.position - s.lastRecv);
    ReportKeepsAccounts(s, s.position - s.lastRecv);
  }

  lemma DoneKeepsAccounts(s: Receiver)
    requires Accounted(s) && s.wrapPending
    ensures Accounted(RxApply(s, Done)) && Unreported(RxApply(s, Done)) == s.position
  {
    hide UpdatePut, RecvedLen, Total;
    ReportKeepsAccounts(s, |s.buffer| - s.lastRecv);
  }

  lemma ReadKeepsAccounts(s: Receiver, length: nat)
    requires Accounted(s)
    ensures Accounted(RxApply(s, ReadBytes(length)))
    ensures Count(RxApply(s, ReadBytes(length))) == Count(s) - Min(length, Count(s))
  {
    hide UpdateGet, Total;
    OldestLaw(s.index, |s.buffer|);
    GetLaw(s.index, |s.buffer|, Min(length, Count(s)));
  }

  lemma StepKeepsReceiving(s: Receiver, e: RxEvent)
    requires Receiving(s)
    ensures Receiving(RxApply(s, e))
  {
    hide UpdatePut, UpdateGet, RecvedLen, Total, HoldsStream;
    if RxEnabled(s, e) {
      match e
      case DmaByte(b) => ByteKeepsStream(s.buffer, s.position, s.stream, b);
      case Idle => IdleKeepsAccounts(s);
      case Done => DoneKeepsAccounts(s);
      case ReadBytes(length) => ReadKeepsAccounts(s, length);
    }
  }

  function RxExec(s: Receiver, es: seq<RxEvent>): (r: Receiver)
    requires Receiving(s)
    ensures Receiving(r)
  {
    if es == [] then s else
    var before := RxExec(s, es[..|es| - 1]);
    StepKeepsReceiving(before, es[|es| - 1]);
    RxApply(before, es[|es| - 1])
  }

  // What a read returns

  /** The place in the stream of the i-th stored byte. */
  function StreamIndex(s: Receiver, i: int): int
    requires SizeFits(s)
  {
    s.reported - Count(s) + i
  }

  lemma CopiedPlaces(s: Receiver, length: nat, i: nat)
    requires Accounted(s) && i < Min(length, Count(s))
    ensures |Copied(s, length)| == Min(length, Count(s))
    ensures 0 <= Oldest(s.index, |s.buffer|) < |s.buffer|
    ensures Copied(s, length)[i] == s.buffer[Around(Oldest(s.index, |s.buffer|), i, |s.buffer|)]
  {
    OldestLaw(s.index, |s.buffer|);
  }

  /**
   * The exact byte a read returns: the stored one, unless the DMA channel has come around
   * since, and then the one it wrote last at that place.
   */
  lemma CopiedExactly(s: Receiver, length: nat, i: nat)
    requires Receiving(s) && i < Min(length, Count(s))
    ensures var j, n := StreamIndex(s, i), |s.buffer|;
      var newest := if |s.stream| - j <= n then j else if |s.stream| - j <= 2 * n then j + n else j + 2 * n;
      && |Copied(s, length)| == Min(length, Count(s))
      && 0 <= newest < |s.stream| && Copied(s, length)[i] == s.stream[newest]
  {
    hide RecvedLen, Copied, UpdateGet, UpdatePut, Total;
    var n := |s.buffer|;
    CopiedPlaces(s, length, i);
    OldestLaw(s.index, n);
    var back := |s.stream| - StreamIndex(s, i);
    var k := if back <= n then back else if back <= 2 * n then back - n else back - 2 * n;
    assert HoldsByte(s.buffer, s.position, s.stream, k);
    assert Around(s.position, n - k, n) == Around(Oldest(s.index, n), i, n);
  }

  /** Bytes written by the channel but not yet reported have not reached unread ones. */
  predicate NotOverrun(s: Receiver)
    requires SizeFits(s)
  {
    Unreported(s) + Count(s) <= |s.buffer|
  }

  lemma CopiedLength(s: Receiver, length: nat)
    requires Accounted(s)
    ensures 0 <= Count(s) <= |s.buffer| && |Copied(s, length)| == Min(length, Count(s))
  {
    OldestLaw(s.index, |s.buffer|);
  }

  /** What is stored is the last reported bytes, and a read returns the oldest of them. */
  lemma ReadIsSegment(s: Receiver, length: nat)
    requires Receiving(s) && NotOverrun(s)
    ensures var from, n := StreamIndex(s, 0), Min(length, Count(s));
      && 0 <= from && from + Count(s) == s.reported <= |s.stream|
      && Copied(s, length) == s.stream[from..from + n]
  {
    hide RecvedLen, Copied, HoldsStream;
    CopiedLength(s, length);
    var from, n := StreamIndex(s, 0), Min(length, Count(s));
    forall i | 0 <= i < n
      ensures Copied(s, length)[i] == s.stream[from..from + n][i]
    {
      CopiedExactly(s, length, i);
    }
  }

  lemma ReadTakesCount(s: Receiver, length: nat)
    requires Receiving(s)
    ensures StreamIndex(RxApply(s, ReadBytes(length)), 0) == StreamIndex(s, 0) + Min(length, Count(s))
  {
    hide RecvedLen, HoldsStream, UpdateGet;
    ReadKeepsAccounts(s, length);
  }

  /**
   * After any run, the FIFO holds exactly the last reported bytes, and a read returns
   * the next contiguous segment from its oldest byte on.
   */
  lemma ReadsFollowTheStream(buffer: seq<Byte>, es: seq<RxEvent>, length: nat)
    requires 0 < |buffer| <= 0x8000
    ensures Receiving(Fresh(buffer))
    ensures var s := RxExec(Fresh(buffer), es);
      NotOverrun(s) ==>
        var from, n := StreamIndex(s, 0), Min(length, Count(s));
        && 0 <= from && from + Count(s) == s.reported <= |s.stream|
        && Copied(s, length) == s.stream[from..from + n]
        && StreamIndex(RxApply(s, ReadBytes(length)), 0) == from + n
  {
    var s := RxExec(Fresh(buffer), es);
    hide RxExec, RecvedLen, Copied, HoldsStream;
    if NotOverrun(s) {
      ReadIsSegment(s, length);
      ReadTakesCount(s, length);
    }
  }

  /** After any run the reports add up to the bytes up to the position the last handler saw. */
  lemma LengthsAreAccounted(buffer: seq<Byte>, es: seq<RxEvent>)
    requires 0 < |buffer| <= 0x8000
    ensures Receiving(Fresh(buffer))
    ensures var s := RxExec(Fresh(buffer), es);
      && Total(s.reports) == s.reported <= |s.stream|
      && (forall i :: 0 <= i < |s.reports| ==> 0 < s.reports[i] <= |buffer|)
      && s.index.put == s.lastRecv
      && (!s.wrapPending ==> RxApply(s, Idle).reported == |s.stream|)
      && (s.wrapPending ==> RxApply(s, Done).reported == |s.stream| - s.position)
  {
    var s := RxExec(Fresh(buffer), es);
    SizeKept(Fresh(buffer), es);
    if s.wrapPending {
      DoneKeepsAccounts(s);
    } else {
      IdleKeepsAccounts(s);
    }
  }

  lemma {:induction false} SizeKept(s: Receiver, es: seq<RxEvent>)
    requires Receiving(s)
    ensures |RxExec(s, es).buffer| == |s.buffer|
  {
    if es != [] {
      SizeKept(s, es[..|es| - 1]);
    }
  }

  /** Without the done handler in between, the idle handler computes a length no buffer can hold. */
  lemma LateDoneMiscounts(s: Receiver)
    requires Accounted(s) && s.wrapPending
    ensures IdleLength(s) > |s.buffer| <==> s.position < s.lastRecv
  {
    ModUnique(s.position - s.lastRecv, 0x1_0000_0000, if s.position < s.lastRecv then -1 else 0,
              s.position - s.lastRecv + if s.position < s.lastRecv then 0x1_0000_0000 else 0);
  }

  /** The indices after an idle handler that finds the channel at position `p` with the put index at `f.put`. */
  function LateIdle(f: RxIndex, bufsz: U16, p: nat): RxIndex
    requires 0 < bufsz
  {
    if p == f.put then f else UpdatePut(f, bufsz, p - f.put)
  }

  /** The oldest stored byte lies between two positions. */
  predicate Between(at: int, p: int, q: int) {
    Min(p, q) < at <= Max(p, q)
  }

  /**
   * A done handler that is late leaves the indices it would have left in time, if and only if the get
   * index is not between the put index and the position of the channel.
   */
  lemma LateDoneExactly(f: RxIndex, bufsz: U16, p: nat)
    requires Sound(f, bufsz) && 0 < bufsz <= 0x8000 && p < bufsz
    ensures UpdatePut(LateIdle(f, bufsz, p), bufsz, bufsz - p) == UpdatePut(f, bufsz, bufsz - f.put)
      <==> !Between(f.get, p, f.put)
  {
    TruncateNear(p);
    TruncateNear(bufsz);
    ModOnce(bufsz, bufsz);
  }

  /** So after every run in which a wrap is pending. */
  lemma LateDoneAfterRun(buffer: seq<Byte>, es: seq<RxEvent>)
    requires 0 < |buffer| <= 0x8000
    ensures Receiving(Fresh(buffer))
    ensures var s, n := RxExec(Fresh(buffer), es), |buffer|;
      s.wrapPending ==>
        (UpdatePut(LateIdle(s.index, n, s.position), n, n - s.position) == RxApply(s, Done).index <==>
         !Between(s.index.get, s.position, s.lastRecv))
  {
    SizeKept(Fresh(buffer), es);
    var s := RxExec(Fresh(buffer), es);
    hide RxExec, UpdatePut, LateIdle, HoldsStream;
    LateDoneExactly(s.index, |buffer|, s.position);
  }

  // A late done handler that lets a byte be read twice

  lemma RxExecStep(s: Receiver, es: seq<RxEvent>, e: RxEvent)
    requires Receiving(s)
    ensures RxExec(s, es + [e]) == RxApply(RxExec(s, es), e)
  {
    assert (es + [e])[..|es|] == es;
  }

  lemma {:induction false} FirstBytes(buffer: seq<Byte>, data: seq<Byte>) returns (es: seq<RxEvent>)
    requires |data| < |buffer| <= 0x8000
    ensures Receiving(Fresh(buffer))
    ensures var s := RxExec(Fresh(buffer), es);
      && |s.buffer| == |buffer| && s.position == |data| && s.stream == data
      && s.index == RxIndex(0, 0, false) && s.lastRecv == 0 && !s.wrapPending
  {
    if data == [] {
      es := [];
    } else {
      var prev := FirstBytes(buffer, data[..|data| - 1]);
      es := prev + [DmaByte(data[|data| - 1])];
      RxExecStep(Fresh(buffer), prev, DmaByte(data[|data| - 1]));
    }
  }

  lemma FirstIdle(s: Receiver)
    requires Receiving(s) && !s.wrapPending && s.index == RxIndex(0, 0, false) && s.lastRecv == 0
    ensures var r := RxApply(s, Idle);
      r == s.(index := RxIndex(s.position, 0, false), lastRecv := s.position,
              reported := r.reported, reports := r.reports)
  {
    ModUnique(s.position, 0x1_0000_0000, 0, s.position);
  }

  lemma FirstRead(s: Receiver)
    requires Receiving(s) && 0 < s.index.put && s.index == RxIndex(s.index.put, 0, false)
    ensures RxApply(s, ReadBytes(1)) == s.(index := RxIndex(s.index.put, 1, false))
  {
  }

  lemma LastByte(s: Receiver, b: Byte)
    requires Receiving(s) && !s.wrapPending && s.position + 1 == |s.buffer|
    ensures var r := RxApply(s, DmaByte(b));
      && |r.buffer| == |s.buffer|
      && r == s.(buffer := r.buffer, position := 0, wrapPending := true, stream := s.stream + [b])
  {
  }

  lemma FirstReport(buffer: seq<Byte>, data: seq<Byte>) returns (es: seq<RxEvent>)
    requires |data| < |buffer| <= 0x8000
    ensures Receiving(Fresh(buffer))
    ensures var s := RxExec(Fresh(buffer), es);
      && |s.buffer| == |buffer| && s.position == s.lastRecv == |data| && s.stream == data
      && s.index == RxIndex(|data|, 0, false) && !s.wrapPending
  {
    var first := FirstBytes(buffer, data);
    es := first + [Idle];
    hide RxExec, RxApply;
    FirstIdle(RxExec(Fresh(buffer), first));
    RxExecStep(Fresh(buffer), first, Idle);
  }

  /** Nearly a buffer is received and reported, one byte is read, and the last byte wraps. */
  lemma ToTheWrap(buffer: seq<Byte>, data: seq<Byte>, b: Byte) returns (es: seq<RxEvent>)
    requires 2 <= |data| + 1 == |buffer| <= 0x8000
    ensures Receiving(Fresh(buffer))
    ensures var s, n := RxExec(Fresh(buffer), es), |buffer|;
      && |s.buffer| == n && s.stream == data + [b] && s.wrapPending && s.position == 0 && s.lastRecv == n - 1
      && s.index == RxIndex(n - 1, 1, false)
  {
    var s0 := Fresh(buffer);
    var first := FirstReport(buffer, data);
    es := first + [ReadBytes(1)] + [DmaByte(b)];
    hide RxExec, Receiving, RxApply, Fresh;
    FirstRead(RxExec(s0, first));
    RxExecStep(s0, first, ReadBytes(1));
    LastByte(RxExec(s0, first + [ReadBytes(1)]), b);
    RxExecStep(s0, first + [ReadBytes(1)], DmaByte(b));
  }

  /**
   * In every buffer of two bytes or more: a done handler that is late lets the reader get a byte it has
   * already read, where a done handler in time goes on with the next one.
   */
  lemma LateDoneRereads(buffer: seq<Byte>, data: seq<Byte>) returns (es: seq<RxEvent>)
    requires 2 <= |data| == |buffer| <= 0x8000
    ensures Receiving(Fresh(buffer))
    ensures var s, n := RxExec(Fresh(buffer), es), |buffer|;
      var late, prompt := RxIndex(0, 0, true), RxIndex(0, 1, false);
      && |s.buffer| == n && s.stream == data && s.wrapPending && s.index.get == 1
      && UpdatePut(LateIdle(s.index, n, s.position), n, n - s.position) == late
      && RecvedLen(late, n) == n && CopiedFrom(late, s.buffer, 1) == [data[0]]
      && RxApply(s, Done).index == prompt
      && RecvedLen(prompt, n) == n - 1 && CopiedFrom(prompt, s.buffer, 1) == [data[1]]
  {
    var n := |buffer|;
    es := ToTheWrap(buffer, data[..n - 1], data[n - 1]);
    assert data == data[..n - 1] + [data[n - 1]];
    hide RxExec, Fresh, HoldsStream, UpdatePut, RxApply, LateIdle;
    FirstSlots(RxExec(Fresh(buffer), es));
    LateDoneAtStart(RxExec(Fresh(buffer), es));
  }

  lemma FirstSlots(s: Receiver)
    requires Receiving(s) && s.position == 0 && |s.stream| == |s.buffer| >= 2
    ensures s.buffer[0] == s.stream[0] && s.buffer[1] == s.stream[1]
  {
    assert HoldsByte(s.buffer, s.position, s.stream, |s.buffer|);
    assert HoldsByte(s.buffer, s.position, s.stream, |s.buffer| - 1);
  }

  lemma LateDoneAtStart(s: Receiver)
    requires Accounted(s) && s.wrapPending && s.position == 0 && s.lastRecv == |s.buffer| - 1
    requires 2 <= |s.buffer| && s.index == RxIndex(|s.buffer| - 1, 1, false)
    ensures UpdatePut(LateIdle(s.index, |s.buffer|, 0), |s.buffer|, |s.buffer|) == RxIndex(0, 0, true)
    ensures RxApply(s, Done).index == RxIndex(0, 1, false)
  {
    hide Total;
    ModUnique(|s.buffer|, |s.buffer|, 1, 0);
    TruncateNear(0);
    TruncateNear(|s.buffer|);
  }
}
