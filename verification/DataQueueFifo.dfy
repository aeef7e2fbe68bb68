/** The data queue as a first-in first-out queue, and exactly when its 16-bit indices break that. */
module DataQueueFifo {
  import opened Common
  import opened Kernel
  import opened DataQueueModel
  import opened DataQueueWakeups

  /** Where the i-th pushed item is stored. */
  function SlotOf(i: nat, size: U16): nat
    requires 0 < size
  {
    Truncate16(i) % size
  }

  /** The slot of an item does not jump when the 16-bit index wraps. */
  predicate WrapSafe(size: U16) {
    0 < size ==> MODULUS_16 % size == 0
  }

  ghost predicate Fits<T>(q: Queue<T>) {
    WrapSafe(q.size) || |q.pushed| <= MODULUS_16
  }

  /** The queue took more items than it has slots for. */
  ghost predicate Overrun<T>(q: Queue<T>) {
    Stored(q) > q.size
  }

  /** Every item not yet taken is in its own slot. */
  ghost predicate SlotsLive<T>(q: Queue<T>)
    requires IndicesValid(q)
  {
    forall i :: |q.popped| <= i < |q.pushed| ==> q.slots[SlotOf(i, q.size)] == q.pushed[i]
  }

  ghost predicate Fifo<T>(q: Queue<T>) {
    && Valid(q)
    && !Overrun(q)
    && q.popped <= q.pushed
    && SlotsLive(q)
  }

  /** The items in the queue, oldest first. */
  function Contents<T>(q: Queue<T>): seq<T> {
    if |q.popped| <= |q.pushed| then q.pushed[|q.popped|..] else []
  }

  lemma SlotsDistinct(i: nat, j: nat, size: U16)
    requires 0 < size && i < j < i + size
    requires MODULUS_16 % size == 0 || j < MODULUS_16
    ensures SlotOf(i, size) != SlotOf(j, size)
  {
    ModDistinct(i, j, size);
    if MODULUS_16 % size == 0 {
      ModOfMod(i, MODULUS_16, size);
      ModOfMod(j, MODULUS_16, size);
    }
  }

  lemma StoreKeepsFifo<T>(q: Queue<T>, item: T)
    requires Fifo(q) && !Full(q) && Stored(q) < q.size && Fits(Store(q, item))
    ensures Fifo(Store(q, item))
    ensures Contents(Store(q, item)) == Contents(q) + [item]
  {
    StoreValid(q, item);
    var r := Store(q, item);
    forall i | |r.popped| <= i < |r.pushed|
      ensures r.slots[SlotOf(i, r.size)] == r.pushed[i]
    {
      if i < |q.pushed| {
        SlotsDistinct(i, |q.pushed|, q.size);
      }
    }
  }

  lemma TakeKeepsFifo<T>(q: Queue<T>)
    requires Fifo(q) && !Empty(q)
    ensures Fifo(Take(q))
    ensures Contents(q) != [] && Take(q).popped == q.popped + [Contents(q)[0]]
    ensures Contents(Take(q)) == Contents(q)[1..]
  {
    TakeValid(q);
    assert q.slots[SlotOf(|q.popped|, q.size)] == q.pushed[|q.popped|];
  }

  /** The full test is exact as long as `put_index` has not wrapped past `get_index`. */
  lemma FullTestExact<T>(q: Queue<T>)
    requires IndicesValid(q) && !Overrun(q)
    ensures Full(q) <==> Stored(q) == q.size && q.getIndex <= q.putIndex
  {
    DifferenceBelowStored(q);
    ModUnique(q.putIndex - q.getIndex, MODULUS_16, if q.getIndex <= q.putIndex then 0 else -1,
              if q.getIndex <= q.putIndex then q.putIndex - q.getIndex else q.putIndex - q.getIndex + MODULUS_16);
    ModUnique(Stored(q), MODULUS_16, 0, Stored(q));
  }

  /** The empty test is exact. */
  lemma EmptyTestExact<T>(q: Queue<T>)
    requires IndicesValid(q) && !Overrun(q)
    ensures Empty(q) <==> Stored(q) == 0
  {
    DifferenceBelowStored(q);
    ModUnique(Stored(q), MODULUS_16, 0, Stored(q));
  }

  /**
   * A pass overruns the queue in exactly one situation: all slots are in use and `put_index`
   * has wrapped while `get_index` has not.
   */
  lemma PassOverrunsExactly<T>(q: Queue<T>, t: ThreadId, item: T, wait: Wait)
    requires Valid(q) && !Overrun(q) && t !in q.callers && 0 < q.size
    ensures Overrun(PushPass(q, t, item, wait)) <==> Stored(q) == q.size && q.putIndex < q.getIndex
  {
    FullTestExact(q);
  }

  lemma PushPassKeepsFifo<T>(q: Queue<T>, t: ThreadId, item: T, wait: Wait)
    requires Fifo(q) && t !in q.callers
    requires Fits(PushPass(q, t, item, wait)) && !Overrun(PushPass(q, t, item, wait))
    ensures Fifo(PushPass(q, t, item, wait))
  {
    PushPassValid(q, t, item, wait);
    if !Full(q) {
      StoreKeepsFifo(q, item);
    }
  }

  lemma PopPassKeepsFifo<T>(q: Queue<T>, t: ThreadId, wait: Wait)
    requires Fifo(q) && (wait != NoWait ==> t !in q.callers)
    ensures Fifo(PopPass(q, t, wait))
  {
    PopPassValid(q, t, wait);
    if !Empty(q) {
      TakeKeepsFifo(q);
    }
  }

  lemma StepKeepsFifo<T>(q: Queue<T>, e: Event<T>)
    requires Fifo(q) && Fits(Apply(q, e)) && !Overrun(Apply(q, e))
    ensures Fifo(Apply(q, e))
  {
    ApplyValid(q, e);
    if Enabled(q, e) {
      match e
      case PushBegin(t, item, wait) => PushPassKeepsFifo(q, t, item, wait);
      case PushRecheck(t) =>
        LeaveValid(q, t);
        if q.callers[t].error == EOK {
          PushPassKeepsFifo(Leave(q, t), t, q.callers[t].item, q.callers[t].wait);
        }
      case PopBegin(t, wait) => PopPassKeepsFifo(q, t, wait);
      case PopRecheck(t) =>
        LeaveValid(q, t);
        if q.callers[t].error == EOK {
          PopPassKeepsFifo(Leave(q, t), t, q.callers[t].wait);
        }
      case Timeout(t) =>
      case ResetPop =>
      case ResetPush =>
    }
  }

  lemma StepGrows<T>(q: Queue<T>, e: Event<T>)
    requires Valid(q)
    ensures q.pushed <= Apply(q, e).pushed && |Apply(q, e).pushed| <= |q.pushed| + 1
    ensures Apply(q, e).size == q.size && Apply(q, e).lwm == q.lwm
  {
  }

  /** An overrun needs a push that finds `put_index` below `get_index`, so it needs a wrapped index. */
  lemma UnwrappedStepDoesNotOverrun<T>(q: Queue<T>, e: Event<T>)
    requires Valid(q) && !Overrun(q) && |Apply(q, e).pushed| <= MODULUS_16
    ensures !Overrun(Apply(q, e))
  {
    if |Apply(q, e).pushed| > |q.pushed| {
      ModUnique(|q.pushed|, MODULUS_16, 0, |q.pushed|);
      ModUnique(|q.popped|, MODULUS_16, 0, |q.popped|);
      assert q.getIndex <= q.putIndex;
      FullTestExact(q);
    }
  }

  /** Until `put_index` wraps, every schedule delivers a prefix of the pushed items, in order. */
  lemma {:induction false} FifoUntilWrap<T>(size: U16, lwm: U16, slots: seq<T>, es: seq<Event<T>>)
    requires |slots| == size
    ensures Valid(Init(size, lwm, slots))
    ensures var q := Exec(Init(size, lwm, slots), es);
      |q.pushed| <= MODULUS_16 ==> Fifo(q) && q.size == size
  {
    var q0 := Init(size, lwm, slots);
    if es != [] {
      var before := Exec(q0, es[..|es| - 1]);
      var e := es[|es| - 1];
      FifoUntilWrap(size, lwm, slots, es[..|es| - 1]);
      StepGrows(before, e);
      if |Apply(before, e).pushed| <= MODULUS_16 {
        UnwrappedStepDoesNotOverrun(before, e);
        StepKeepsFifo(before, e);
      }
    }
  }

  /** No state of the run holds more items than slots. */
  ghost predicate NeverOverruns<T>(q0: Queue<T>, es: seq<Event<T>>)
    requires Valid(q0)
  {
    !Overrun(Exec(q0, es)) && (es != [] ==> NeverOverruns(q0, es[..|es| - 1]))
  }

  /** With a wrap-safe size, every schedule that never overruns the queue does so for ever. */
  lemma {:induction false} FifoAcrossWraps<T>(size: U16, lwm: U16, slots: seq<T>, es: seq<Event<T>>)
    requires |slots| == size && WrapSafe(size)
    ensures Valid(Init(size, lwm, slots))
    ensures NeverOverruns(Init(size, lwm, slots), es) ==> Fifo(Exec(Init(size, lwm, slots), es))
  {
    var q0 := Init(size, lwm, slots);
    if es != [] && NeverOverruns(q0, es) {
      FifoAcrossWraps(size, lwm, slots, es[..|es| - 1]);
      ConfigKept(q0, es);
      StepKeepsFifo(Exec(q0, es[..|es| - 1]), es[|es| - 1]);
    }
  }

  /** `rt_data_queue_peak`. */
  function Peek<T>(q: Queue<T>): Option<T>
    requires IndicesValid(q)
  {
    if Empty(q) then None else Some(q.slots[q.getIndex % q.size])
  }

  /** Peek fails exactly on the empty queue, and otherwise shows the item the next pop returns. */
  lemma PeekIsNextPop<T>(q: Queue<T>, t: ThreadId, wait: Wait)
    requires Fifo(q) && t !in q.callers
    ensures Peek(q).None? <==> Contents(q) == []
    ensures Peek(q).Some? ==>
      Peek(q).value == Contents(q)[0] && PopPass(q, t, wait).popped == q.popped + [Peek(q).value]
  {
    EmptyTestExact(q);
    if !Empty(q) {
      TakeKeepsFifo(q);
    }
  }

  // The limits are real

  lemma ExecStep<T>(q: Queue<T>, es: seq<Event<T>>, e: Event<T>)
    requires Valid(q)
    ensures Exec(q, es + [e]) == Apply(Exec(q, es), e)
    ensures NeverOverruns(q, es + [e]) <==> NeverOverruns(q, es) && !Overrun(Apply(Exec(q, es), e))
  {
    assert (es + [e])[..|es|] == es;
  }

  ghost predicate AllAre<T>(s: seq<T>, item: T) {
    forall i :: 0 <= i < |s| ==> s[i] == item
  }

  /** One thread has pushed and popped copies of one item without sleeping. */
  ghost predicate Plain<T>(q: Queue<T>, size: U16, item: T, popped: nat, stored: nat) {
    q.callers == map[] && q.size == size && |q.popped| == popped && Stored(q) == stored && AllAre(q.pushed, item)
  }

  lemma PlainPush<T>(q: Queue<T>, size: U16, item: T, popped: nat, stored: nat)
    requires Valid(q) && Plain(q, size, item, popped, stored) && stored < size
    ensures Plain(Apply(q, PushBegin(0, item, NoWait)), size, item, popped, stored + 1)
  {
    HeadsSleep(q);
    FullTestExact(q);
  }

  lemma PlainPop<T>(q: Queue<T>, size: U16, item: T, popped: nat, stored: nat)
    requires Valid(q) && Plain(q, size, item, popped, stored) && 0 < stored <= size
    ensures Plain(Apply(q, PopBegin(0, NoWait)), size, item, popped + 1, stored - 1)
  {
    HeadsSleep(q);
    EmptyTestExact(q);
  }

  lemma {:induction false} Alternate<T>(q0: Queue<T>, item: T, k: nat) returns (es: seq<Event<T>>)
    requires Valid(q0) && Plain(q0, q0.size, item, 0, 0) && 0 < q0.size
    ensures Plain(Exec(q0, es), q0.size, item, k, 0) && NeverOverruns(q0, es)
  {
    hide Apply;
    if k == 0 {
      es := [];
    } else {
      var prev := Alternate(q0, item, k - 1);
      var push, pop := PushBegin(0, item, NoWait), PopBegin(0, NoWait);
      PlainPush(Exec(q0, prev), q0.size, item, k - 1, 0);
      ExecStep(q0, prev, push);
      PlainPop(Exec(q0, prev + [push]), q0.size, item, k - 1, 1);
      ExecStep(q0, prev + [push], pop);
      es := prev + [push] + [pop];
    }
  }

  /** With `base` items gone, the queue takes items up to its size. */
  lemma {:induction false} Fill<T>(q0: Queue<T>, item: T, base: nat, n: nat) returns (es: seq<Event<T>>)
    requires Valid(q0) && Plain(q0, q0.size, item, 0, 0) && 0 < q0.size && n <= q0.size
    ensures Plain(Exec(q0, es), q0.size, item, base, n) && NeverOverruns(q0, es)
  {
    hide Apply;
    if n == 0 {
      es := Alternate(q0, item, base);
    } else {
      var prev := Fill(q0, item, base, n - 1);
      var push := PushBegin(0, item, NoWait);
      PlainPush(Exec(q0, prev), q0.size, item, base, n - 1);
      ExecStep(q0, prev, push);
      es := prev + [push];
    }
  }

  /** Whatever its size, a data queue can accept one item more than it has slots with its 65537th push. */
  lemma EveryQueueCanOverrun<T>(size: U16, lwm: U16, slots: seq<T>, item: T) returns (es: seq<Event<T>>)
    requires 0 < size == |slots|
    ensures Valid(Init(size, lwm, slots)) && Overrun(Exec(Init(size, lwm, slots), es))
    ensures |Exec(Init(size, lwm, slots), es).pushed| == MODULUS_16 + 1
  {
    var q0, e := Init(size, lwm, slots), PushBegin(0, item, NoWait);
    var full := Fill(q0, item, MODULUS_16 - size, size);
    var q := Exec(q0, full);
    es := full + [e];
    ExecStep(q0, full, e);
    TruncateNear(|q.popped|);
    TruncateNear(|q.pushed|);
    PassOverrunsExactly(q, 0, item, NoWait);
  }

  /** The number of pushes up to which every schedule delivers in order is exactly 65536, for every size. */
  lemma FifoUntilWrapExactly<T>(size: U16, lwm: U16, slots: seq<T>, item: T, n: nat)
    requires 0 < size == |slots|
    ensures Valid(Init(size, lwm, slots))
    ensures (forall es :: |Exec(Init(size, lwm, slots), es).pushed| <= n ==> Fifo(Exec(Init(size, lwm, slots), es)))
      <==> n <= MODULUS_16
  {
    hide Fifo;
    if n <= MODULUS_16 {
      forall es
        ensures |Exec(Init(size, lwm, slots), es).pushed| <= n ==> Fifo(Exec(Init(size, lwm, slots), es))
      {
        FifoUntilWrap(size, lwm, slots, es);
      }
    } else {
      var es := EveryQueueCanOverrun(size, lwm, slots, item);
      FifoIsNotOverrun(Exec(Init(size, lwm, slots), es));
    }
  }

  lemma FifoIsNotOverrun<T>(q: Queue<T>)
    ensures Overrun(q) ==> !Fifo(q)
  {
  }

  /** An item still queued shares its slot with the one stored at the wrapped index. */
  lemma WrappedSlot(n: U16)
    requires 0 < n && !WrapSafe(n)
    ensures 0 < MODULUS_16 % n < n
    ensures SlotOf(MODULUS_16 - MODULUS_16 % n, n) == 0 && SlotOf(MODULUS_16, n) == 0
  {
    var j := MODULUS_16 - MODULUS_16 % n;
    ModUnique(j, n, MODULUS_16 / n, 0);
    ModUnique(j, MODULUS_16, 0, j);
    ModUnique(0, n, 0, 0);
  }

  /** At the wrap a queue of another size loses an item without ever being overrun. */
  lemma WrapLosesAnItem<T>(size: U16, lwm: U16, slots: seq<T>, a: T, b: T) returns (es: seq<Event<T>>)
    requires 0 < size == |slots| && !WrapSafe(size) && a != b
    ensures Valid(Init(size, lwm, slots)) && NeverOverruns(Init(size, lwm, slots), es)
    ensures !Fifo(Exec(Init(size, lwm, slots), es))
  {
    var q0, e := Init(size, lwm, slots), PushBegin(0, b, NoWait);
    WrappedSlot(size);
    var full := Fill(q0, a, MODULUS_16 - size + 1, size - 1);
    var q := Exec(q0, full);
    es := full + [e];
    ExecStep(q0, full, e);
    HeadsSleep(q);
    FullTestExact(q);
    var r, j := Apply(q, e), MODULUS_16 - MODULUS_16 % size;
    assert r == Store(q, b);
    assert r.slots[SlotOf(j, size)] == b && r.pushed[j] == a;
  }

  /** Every schedule that never overruns the queue delivers in order if and only if the size divides 65536. */
  lemma FifoAcrossWrapsExactly<T>(size: U16, lwm: U16, slots: seq<T>, a: T, b: T)
    requires 0 < size == |slots| && a != b
    ensures Valid(Init(size, lwm, slots))
    ensures (forall es :: NeverOverruns(Init(size, lwm, slots), es) ==> Fifo(Exec(Init(size, lwm, slots), es)))
      <==> MODULUS_16 % size == 0
  {
    hide Fifo;
    if WrapSafe(size) {
      forall es
        ensures NeverOverruns(Init(size, lwm, slots), es) ==> Fifo(Exec(Init(size, lwm, slots), es))
      {
        FifoAcrossWraps(size, lwm, slots, es);
      }
    } else {
      var es := WrapLosesAnItem(size, lwm, slots, a, b);
    }
  }
}
