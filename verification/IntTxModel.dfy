/**
 * The interrupt transmit path: `_serial_int_tx` of rt_ext/serial.c over `stm32_putc` and the TC
 * interrupt of rt_ext/usart.c and the completion, with one writing thread.
 */
module IntTxModel {
  import opened Common
  import opened Kernel
  import opened CompletionModel
  import C = CompletionModel

  /**
   * The transmit side of the peripheral: data register (TXE is set when it is empty), shift
   * register, TC flag and TC interrupt enable; `wire` is every byte sent so far.
   */
  datatype Uart = Uart(dr: Option<Byte>, shifter: Option<Byte>, tc: bool, tcie: bool, wire: seq<Byte>)

  /** Where the writing thread stands in the loop, in `putc` and in `wait`. */
  datatype Phase = LoopTop | SawEmpty | JustWritten | SawFull | BeforeWait | InWait | Returned

  /** `pos` counts the bytes the loop has stepped over. */
  datatype Sender = Sender(data: seq<Byte>, pos: nat, phase: Phase, uart: Uart, done: Completion)

  datatype Step =
    | CheckTxe | WriteDr | EnableTc | EnterWait | ExitWait | Return
    | Shift | Finish
    | TcIsr

  const WRITER: ThreadId := 0

  predicate CanStep(s: Sender, e: Step) {
    match e
    case CheckTxe => s.phase.LoopTop? && s.pos < |s.data|
    case WriteDr => s.phase.SawEmpty? && s.pos < |s.data|
    case EnableTc => s.phase.JustWritten? || s.phase.SawFull?
    case EnterWait => s.phase.BeforeWait? && C.Enabled(s.done, Enter(WRITER, Forever))
    case ExitWait => s.phase.InWait? && C.Enabled(s.done, Exit(WRITER))
    case Return => s.phase.LoopTop? && s.pos >= |s.data|
    case Shift => s.uart.dr.Some? && s.uart.shifter.None?
    case Finish => s.uart.shifter.Some?
    case TcIsr => s.uart.tc && s.uart.tcie
  }

  /**
   * Writing the data register after reading the status register clears TC; the peripheral sets TC
   * when the last bit has left and the data register is empty. The interrupt is one step: while TC
   * is set the peripheral is idle, and no thread runs inside it.
   */
  function Take(s: Sender, e: Step): Sender {
    if !CanStep(s, e) then s else
    match e
    case CheckTxe => s.(phase := if s.uart.dr.None? then SawEmpty else SawFull)
    case WriteDr => s.(phase := JustWritten, uart := s.uart.(dr := Some(s.data[s.pos]), tc := false))
    case EnableTc =>
      var on := s.(uart := s.uart.(tcie := true));
      if s.phase.SawFull? then on.(phase := BeforeWait) else on.(phase := LoopTop, pos := s.pos + 1)
    case EnterWait =>
      s.(done := C.Apply(s.done, Enter(WRITER, Forever)), phase := if s.done.completed then LoopTop else InWait)
    case ExitWait => s.(done := C.Apply(s.done, Exit(WRITER)), phase := LoopTop)
    case Return => s.(phase := Returned)
    case Shift => s.(uart := s.uart.(dr := None, shifter := s.uart.dr))
    case Finish =>
      s.(uart := s.uart.(shifter := None, wire := s.uart.wire + [s.uart.shifter.value],
                         tc := s.uart.tc || s.uart.dr.None?))
    case TcIsr => s.(done := C.Apply(s.done, Done), uart := s.uart.(tcie := false, tc := false))
  }

  function Run(s: Sender, es: seq<Step>): Sender {
    if es == [] then s else Take(Run(s, es[..|es| - 1]), es[|es| - 1])
  }

  // What every step keeps

  function Held(b: Option<Byte>): seq<Byte> {
    if b.Some? then [b.value] else []
  }

  /** Every byte ever given to the peripheral, in order. */
  function Given(u: Uart): seq<Byte> {
    u.wire + Held(u.shifter) + Held(u.dr)
  }

  function Written(s: Sender): nat {
    s.pos + if s.phase.JustWritten? then 1 else 0
  }

  /** The peripheral still owes a TC interrupt once it is enabled. */
  predicate Owes(u: Uart) {
    u.tc || u.dr.Some? || u.shifter.Some?
  }

  predicate AsleepInWait(s: Sender) {
    s.phase.InWait? && C.IsAsleep(s.done, WRITER)
  }

  /** Registers and completion as an earlier transmission may leave them. */
  ghost predicate Ready(u: Uart, c: Completion) {
    && (u.tc ==> u.dr.None? && u.shifter.None?)
    && C.Valid(c) && c.threads == map[]
  }

  function Start(data: seq<Byte>, u: Uart, c: Completion): Sender {
    Sender(data, 0, LoopTop, u, c)
  }

  ghost predicate Threads(s: Sender) {
    && C.Valid(s.done)
    && s.done.threads.Keys == (if s.phase.InWait? then {WRITER} else {})
    && (s.phase.InWait? && !C.IsAsleep(s.done, WRITER) ==>
         s.done.completed && s.done.threads[WRITER] == Resumed(EOK))
  }

  ghost predicate Ok(s: Sender, prior: seq<Byte>) {
    && (s.uart.tc ==> s.uart.dr.None? && s.uart.shifter.None?)
    && Threads(s)
    && Written(s) <= |s.data| && (s.phase.SawEmpty? ==> s.pos < |s.data| && s.uart.dr.None?)
    && (s.phase.Returned? ==> s.pos == |s.data|)
    && Given(s.uart) == prior + s.data[..Written(s)]
    && (s.phase.SawFull? ==> s.done.completed || Owes(s.uart))
    && (s.phase.BeforeWait? ==> s.done.completed || (s.uart.tcie && Owes(s.uart)))
    && (AsleepInWait(s) ==> s.uart.tcie && Owes(s.uart))
  }

  lemma CompletionSteps(s: Sender)
    requires Threads(s)
    ensures s.phase.BeforeWait? ==> CanStep(s, EnterWait) && Threads(Take(s, EnterWait))
    ensures CanStep(s, ExitWait) ==>
      Threads(Take(s, ExitWait)) && s.done.completed && !C.Apply(s.done, Exit(WRITER)).completed
    ensures Threads(s.(done := C.Apply(s.done, Done))) && C.Apply(s.done, Done).completed
    ensures s.phase.InWait? ==> !C.IsAsleep(C.Apply(s.done, Done), WRITER)
  {
    C.ApplyValid(s.done, Enter(WRITER, Forever));
    C.ApplyValid(s.done, Exit(WRITER));
    C.ApplyValid(s.done, Done);
    if s.done.suspended != [] {
      assert s.done.suspended[0] in s.done.suspended;
      assert C.IsAsleep(s.done, s.done.suspended[0]);
    }
    assert s.phase.InWait? && C.IsAsleep(s.done, WRITER) ==> WRITER in s.done.suspended;
  }

  lemma StepKeepsOk(s: Sender, prior: seq<Byte>, e: Step)
    requires Ok(s, prior)
    ensures Ok(Take(s, e), prior)
  {
    CompletionSteps(s);
    hide C.Valid, C.Apply, Kernel.Without;
    var r := Take(s, e);
    if CanStep(s, e) {
      match e
      case WriteDr =>
        assert s.data[..s.pos + 1] == s.data[..s.pos] + [s.data[s.pos]];
        assert Given(r.uart) == Given(s.uart) + [s.data[s.pos]];
      case Shift => assert Given(r.uart) == Given(s.uart);
      case Finish => assert Given(r.uart) == Given(s.uart);
      case _ =>
    }
  }

  lemma {:induction false} OkOverRun(data: seq<Byte>, u: Uart, c: Completion, es: seq<Step>)
    requires Ready(u, c)
    ensures Ok(Run(Start(data, u, c), es), Given(u)) && Run(Start(data, u, c), es).data == data
  {
    if es != [] {
      OkOverRun(data, u, c, es[..|es| - 1]);
      StepKeepsOk(Run(Start(data, u, c), es[..|es| - 1]), Given(u), es[|es| - 1]);
    } else {
      assert Given(u) == Given(u) + data[..0];
    }
  }

  // Main results

  /**
   * At every point of every schedule the bytes on the wire and in the two registers are what was
   * there before followed by a prefix of the caller's data, and no more than the loop has passed.
   */
  lemma WireIsPrefix(data: seq<Byte>, u: Uart, c: Completion, es: seq<Step>)
    requires Ready(u, c)
    ensures var s := Run(Start(data, u, c), es);
      && Written(s) <= |data| && Given(s.uart) == Given(u) + data[..Written(s)]
      && s.uart.wire <= Given(u) + data
      && (s.phase.Returned? ==> Given(s.uart) == Given(u) + data)
  {
    OkOverRun(data, u, c, es);
    var s := Run(Start(data, u, c), es);
    OkMeansGiven(s, Given(u));
    hide Given, Ok, Ready, Run;
    assert s.phase.Returned? ==> data[..Written(s)] == data;
    PrefixGoesOn(s.uart.wire, Given(u), data, Written(s));
  }

  lemma OkMeansGiven(s: Sender, prior: seq<Byte>)
    requires Ok(s, prior)
    ensures Written(s) <= |s.data| && Given(s.uart) == prior + s.data[..Written(s)] && s.uart.wire <= Given(s.uart)
    ensures s.phase.Returned? ==> Written(s) == |s.data|
  {
  }

  lemma PrefixGoesOn(w: seq<Byte>, before: seq<Byte>, data: seq<Byte>, n: nat)
    requires n <= |data| && w <= before + data[..n]
    ensures w <= before + data
  {
    assert before + data == (before + data[..n]) + data[n..];
  }

  /** Whenever the writer sleeps, the TC interrupt is enabled and the peripheral will raise it. */
  lemma SleeperIsOwed(data: seq<Byte>, u: Uart, c: Completion, es: seq<Step>)
    requires Ready(u, c)
    ensures var s := Run(Start(data, u, c), es);
      AsleepInWait(s) ==>
        s.uart.tcie && !s.done.completed && (CanStep(s, Shift) || CanStep(s, Finish) || CanStep(s, TcIsr))
  {
    OkOverRun(data, u, c, es);
    var s := Run(Start(data, u, c), es);
    assert AsleepInWait(s) ==> WRITER in s.done.suspended;
  }

  /** When the call has returned and the wire is still, the next call finds registers it can start from. */
  lemma ReturnedIsReady(data: seq<Byte>, u: Uart, c: Completion, es: seq<Step>)
    requires Ready(u, c)
    ensures var s := Run(Start(data, u, c), es);
      s.phase.Returned? ==> Ready(s.uart, s.done) && Given(s.uart) == Given(u) + data
  {
    WireIsPrefix(data, u, c, es);
    OkOverRun(data, u, c, es);
    assert Run(Start(data, u, c), es).done.threads.Keys == {} ==> Run(Start(data, u, c), es).done.threads == map[];
  }

  // Single steps

  /**
   * `putc` looks at TXE, writes the next byte of the caller and no other if the register was empty, and enables the
   * interrupt on either way; only a written byte moves the loop on, and only a refused one makes it wait.
   */
  lemma PutcLaw(s: Sender, prior: seq<Byte>)
    requires Ok(s, prior)
    ensures s.phase == LoopTop && s.pos < |s.data| ==>
      var r := Take(s, CheckTxe);
      && r == s.(phase := r.phase)
      && (s.uart.dr == None <==> CanStep(r, WriteDr)) && (s.uart.dr != None ==> CanStep(r, EnableTc))
    ensures s.phase == SawEmpty ==>
      var r := Take(s, WriteDr);
      && r.uart == s.uart.(dr := Some(s.data[s.pos]), tc := false) && s.uart.dr == None
      && r.pos == s.pos && r.done == s.done && CanStep(r, EnableTc)
    ensures s.phase == JustWritten || s.phase == SawFull ==>
      var r := Take(s, EnableTc);
      && r.uart == s.uart.(tcie := true) && r.done == s.done
      && (s.phase == JustWritten ==> r.pos == s.pos + 1 && (CanStep(r, CheckTxe) || CanStep(r, Return)))
      && (s.phase == SawFull ==> r.pos == s.pos && CanStep(r, EnterWait))
  {
    if CanStep(s, EnableTc) {
      CompletionSteps(Take(s, EnableTc));
    }
    hide Kernel.Without, Given;
  }

  /** The interrupt turns itself off, clears its flag and leaves the signal set with nobody asleep. */
  lemma TcIsrLaw(s: Sender, prior: seq<Byte>)
    requires Ok(s, prior) && s.uart.tc && s.uart.tcie
    ensures var r := Take(s, TcIsr);
      && r.uart == s.uart.(tc := false, tcie := false) && !CanStep(r, TcIsr)
      && r.done.completed && !AsleepInWait(r) && (s.phase.InWait? ==> CanStep(r, ExitWait))
      && r.phase == s.phase && r.pos == s.pos
  {
    CompletionSteps(s);
    C.DoneLaw(s.done, WRITER);
  }

  // Termination under every schedule

  function Weight(p: Phase): nat {
    match p
    case LoopTop => 4
    case SawEmpty => 3
    case JustWritten => 5
    case SawFull => 3
    case BeforeWait => 2
    case InWait => 1
    case Returned => 0
  }

  /** How many steps writer, peripheral and interrupt can still take. */
  function Budget(s: Sender): int {
    10 * (|s.data| - Written(s)) + Weight(s.phase)
    + (if s.uart.dr.Some? then 7 else 0) + (if s.uart.shifter.Some? then 6 else 0)
    + (if s.uart.tc then 5 else 0) + (if s.done.completed then 4 else 0)
  }

  lemma StepSpendsBudget(s: Sender, prior: seq<Byte>, e: Step)
    requires Ok(s, prior) && CanStep(s, e)
    ensures Budget(Take(s, e)) < Budget(s)
  {
    CompletionSteps(s);
    hide C.Valid, C.Apply, Kernel.Without, Given;
    if e.EnterWait? {
      EnterClears(s);
    }
  }

  lemma EnterClears(s: Sender)
    requires CanStep(s, EnterWait)
    ensures !C.Apply(s.done, Enter(WRITER, Forever)).completed
  {
  }

  ghost predicate AllTaken(s: Sender, es: seq<Step>) {
    forall n :: 0 <= n < |es| ==> CanStep(Run(s, es[..n]), es[n])
  }

  ghost predicate Still(s: Sender) {
    forall e :: !CanStep(s, e)
  }

  lemma {:induction false} RunSpendsBudget(data: seq<Byte>, u: Uart, c: Completion, es: seq<Step>)
    requires Ready(u, c) && AllTaken(Start(data, u, c), es)
    ensures Budget(Run(Start(data, u, c), es)) + |es| <= Budget(Start(data, u, c))
  {
    var s0 := Start(data, u, c);
    hide Budget, Take, CanStep, Ok;
    if es != [] {
      var n := |es| - 1;
      assert forall m :: 0 <= m <= n ==> es[..n][..m] == es[..m];
      RunSpendsBudget(data, u, c, es[..n]);
      OkOverRun(data, u, c, es[..n]);
      StepSpendsBudget(Run(s0, es[..n]), Given(u), es[n]);
    }
  }

  lemma StillMeansSent(s: Sender, prior: seq<Byte>)
    requires Ok(s, prior) && Still(s)
    ensures s.phase.Returned? && s.uart.wire == prior + s.data
  {
    CompletionSteps(s);
    assert !CanStep(s, CheckTxe) && !CanStep(s, WriteDr) && !CanStep(s, EnableTc) && !CanStep(s, EnterWait);
    assert !CanStep(s, ExitWait) && !CanStep(s, Return);
    assert !CanStep(s, Shift) && !CanStep(s, Finish) && !CanStep(s, TcIsr);
    assert s.data[..|s.data|] == s.data;
  }

  /**
   * Every schedule ends: it has at most ten steps for each byte and a fixed rest, and where it cannot go on,
   * the call has returned and exactly the caller's data followed the earlier bytes on the wire.
   */
  lemma EveryScheduleSends(data: seq<Byte>, u: Uart, c: Completion, es: seq<Step>)
    requires Ready(u, c) && AllTaken(Start(data, u, c), es)
    ensures var s := Run(Start(data, u, c), es);
      && |es| <= 10 * |data| + 21
      && (Still(s) ==> s.phase.Returned? && s.uart.wire == Given(u) + data)
  {
    RunSpendsBudget(data, u, c, es);
    OkOverRun(data, u, c, es);
    var s := Run(Start(data, u, c), es);
    assert Budget(s) >= 0;
    if Still(s) {
      StillMeansSent(s, Given(u));
    }
  }
}
