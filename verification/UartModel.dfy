/** quasar_uart.c at statement level: thread calls, the interrupt handler and the UART hardware interleave.

    Every C statement that touches a queue field, CR1, the nesting counter or PRIMASK is one step. The handler preempts
    the thread wherever PRIMASK is clear, and the hardware acts between any two steps. */
module UartModel {
  import opened Words
  import opened Ring
  import Critical

  const DEPTH := 8 // QUASAR_UART_HW_FIFO_DEPTH

  /** The fields of a quasar_fifo_t, also while a push or a pull is under way. */
  datatype Queue = Queue(data: seq<byte>, count: nat, indexIn: nat, indexOut: nat)

  ghost predicate Sound(q: Queue) {
    && |q.data| == SIZE && q.count <= SIZE && q.indexIn < SIZE && q.indexOut < SIZE
    && q.indexIn == (q.indexOut + q.count) % SIZE
  }

  function Bytes(q: Queue): seq<byte>
    requires |q.data| == SIZE
  {
    Window(q.data, q.indexOut, q.count)
  }

  /** What the thread asks for: the two drivers calls, and critical sections of its own around them. */
  datatype Job = Transmit(buffer: seq<byte>) | Receive | Section

  /** What follows exit_critical: the TXEIE update of a transmit call, or nothing. */
  datatype After = Kick | Done | Leave

  datatype Pc =
    | Outside
    | Enter0(job: Job) | Enter1(job: Job, first: bool) | Enter2(job: Job)
    | Loop(rest: seq<byte>)                                  // loop head
    | Push1(rest: seq<byte>) | Push2(rest: seq<byte>)        // not full: store; ++index_in
    | Push3(rest: seq<byte>) | Push4(rest: seq<byte>)        // index_in %= SIZE; ++count
    | Take0 | Take1 | Take2                                  // get_count; the test in pull; load
    | Take3(b: byte) | Take4(b: byte) | Take5(b: byte)       // ++index_out; %= SIZE; --count
    | Exit0(after: After) | Exit1(after: After)
    | Cr0 | Cr1(saw: bool)                                   // read CR1; write CR1 | TXEIE

  /** Overrun: about to read ISR for ORE; Clear: about to write ORECF; Return: about to return. */
  datatype Handler = Idle | Rx(slot: nat) | Tx | Overrun | Clear | Return

  /** What has happened so far: bytes the calls have promised to send, bytes written to TDR, bytes that arrived on the
      line, bytes handed to receivers, bytes dropped, arrivals since the last handler entry, overruns of the hardware
      FIFO, and how many of these there were at the last handler entry and at the handler's last read of ISR for ORE. */
  datatype Log = Log(
    promised: seq<byte>, sent: seq<byte>, arrived: seq<byte>, delivered: seq<byte>, lost: nat, recent: nat,
    overruns: nat, atEntry: nat, atRead: nat)

  datatype Uart = Uart(
    tx: Queue, rx: Queue, mask: Critical.Mask, outer: nat, pc: Pc, handler: Handler,
    txeie: bool, txe: bool, hwRx: seq<byte>, ore: bool, log: Log)

  datatype Step = Call(job: Job) | LeaveSection | Thread | Irq | HandlerStep | Arrive(b: byte) | TxReady

  ghost predicate Fresh(s: Uart) {
    && Sound(s.tx) && s.tx.count == 0 && Sound(s.rx) && s.rx.count == 0
    && s.mask == Critical.Mask(0, false) && s.outer == 0 && s.pc == Outside && s.handler == Idle
    && !s.txeie && s.hwRx == [] && !s.ore && s.log == Log([], [], [], [], 0, 0, 0, 0, 0)
  }

  /** The thread runs only while no handler is active. */
  predicate CanStep(s: Uart, step: Step) {
    match step
    case Call(_) => s.handler == Idle && s.pc == Outside
    case LeaveSection => s.handler == Idle && s.pc == Outside && s.outer > 0
    case Thread => s.handler == Idle && s.pc != Outside
    case Irq => s.handler == Idle && !s.mask.primask
    case HandlerStep => s.handler != Idle
    case Arrive(_) => true
    case TxReady => true
  }

  /** The part of a buffer that the queue has room for. */
  function Fitting(rest: seq<byte>, count: nat): seq<byte> {
    if count >= SIZE then [] else if |rest| <= SIZE - count then rest else rest[..SIZE - count]
  }

  /** First statement of a job inside its critical section. */
  function Begin(s: Uart, job: Job): Uart {
    match job
    case Transmit(buffer) =>
      s.(pc := Loop(buffer), log := s.log.(promised := s.log.promised + Fitting(buffer, s.tx.count)))
    case Receive => s.(pc := Take0)
    case Section => s.(pc := Outside, outer := s.outer + 1)
  }

  predicate InPush(pc: Pc) { pc.Loop? || pc.Push1? || pc.Push2? || pc.Push3? || pc.Push4? }

  predicate InTake(pc: Pc) { pc.Take0? || pc.Take1? || pc.Take2? || pc.Take3? || pc.Take4? || pc.Take5? }

  /** The statements of enter_critical and exit_critical. */
  function SectionStep(s: Uart): Uart {
    match s.pc
    case Enter0(job) => s.(pc := Enter1(job, s.mask.nested == 0))
    case Enter1(job, first) => s.(pc := Enter2(job), mask := s.mask.Disabled(first))
    case Enter2(job) => Begin(s.(mask := s.mask.Counted()), job)
    case Exit0(after) => s.(pc := Exit1(after), mask := s.mask.Uncounted())
    case Exit1(after) => s.(pc := if after == Kick then Cr0 else Outside, mask := s.mask.Enabled())
    case _ => s
  }

  /** The push loop and the statements of quasar_fifo_push. */
  function PushStep(s: Uart): Uart
    requires InPush(s.pc)
  {
    var q, rest := s.tx, s.pc.rest;
    match s.pc
    case Loop(_) =>
      if rest == [] then s.(pc := Exit0(Kick))
      else if q.count >= SIZE then s.(pc := Loop(rest[1..]))
      else s.(pc := Push1(rest))
    case Push1(_) =>
      if rest != [] && q.indexIn < |q.data|
      then s.(pc := Push2(rest), tx := q.(data := q.data[q.indexIn := rest[0]]))
      else s
    case Push2(_) => s.(pc := Push3(rest), tx := q.(indexIn := q.indexIn + 1))
    case Push3(_) => s.(pc := Push4(rest), tx := q.(indexIn := q.indexIn % SIZE))
    case Push4(_) => s.(pc := Loop(if rest == [] then [] else rest[1..]), tx := q.(count := q.count + 1))
  }

  /** The statements of quasar_uart_receive_irq and quasar_fifo_pull. */
  function TakeStep(s: Uart): Uart
    requires InTake(s.pc)
  {
    var q := s.rx;
    match s.pc
    case Take0 => s.(pc := if q.count != 0 then Take1 else Exit0(Done))
    case Take1 => s.(pc := if q.count <= 0 then Exit0(Done) else Take2)
    case Take2 => if q.indexOut < |q.data| then s.(pc := Take3(q.data[q.indexOut])) else s
    case Take3(b) => s.(pc := Take4(b), rx := q.(indexOut := q.indexOut + 1))
    case Take4(b) => s.(pc := Take5(b), rx := q.(indexOut := q.indexOut % SIZE))
    case Take5(b) =>
      s.(pc := Exit0(Done), rx := q.(count := if q.count > 0 then q.count - 1 else 0),
         log := s.log.(delivered := s.log.delivered + [b]))
  }

  /** QUASAR_SET_BIT(CR1, TXEIE): a read and a write. */
  function KickStep(s: Uart): Uart {
    match s.pc
    case Cr0 => s.(pc := Cr1(s.txeie))
    case Cr1(saw) => s.(pc := Outside, txeie := true)
    case _ => s
  }

  function ThreadStep(s: Uart): Uart {
    if InPush(s.pc) then PushStep(s)
    else if InTake(s.pc) then TakeStep(s)
    else if s.pc.Cr0? || s.pc.Cr1? then KickStep(s)
    else SectionStep(s)
  }

  // The handler runs undisturbed by the thread, so its queue operations are single steps.

  function Put(q: Queue, b: byte): Queue {
    if q.count >= SIZE || q.indexIn >= |q.data| then q
    else Queue(q.data[q.indexIn := b], q.count + 1, (q.indexIn + 1) % SIZE, q.indexOut)
  }

  function Drop(q: Queue): Queue {
    if q.count == 0 then q else q.(count := q.count - 1, indexOut := (q.indexOut + 1) % SIZE)
  }

  function Front(q: Queue): byte {
    if q.indexOut < |q.data| then q.data[q.indexOut] else 0
  }

  function HandlerStepped(s: Uart): Uart {
    match s.handler
    case Idle => s
    case Rx(slot) =>
      if slot < DEPTH && s.hwRx != [] then
        s.(handler := Rx(slot + 1), hwRx := s.hwRx[1..], rx := Put(s.rx, s.hwRx[0]),
           log := s.log.(lost := s.log.lost + if s.rx.count >= SIZE then 1 else 0))
      else s.(handler := Tx)
    case Tx =>
      if s.txe && s.txeie then
        if s.tx.count > 0 then
          s.(handler := Overrun, tx := Drop(s.tx), txe := false, log := s.log.(sent := s.log.sent + [Front(s.tx)]))
        else s.(handler := Overrun, txeie := false)
      else s.(handler := Overrun)
    case Overrun => s.(handler := if s.ore then Clear else Return, log := s.log.(atRead := s.log.overruns))
    case Clear => s.(handler := Return, ore := false)
    case Return => s.(handler := Idle)
  }

  function Stepped(s: Uart, step: Step): Uart {
    match step
    case Call(job) => s.(pc := Enter0(job))
    case LeaveSection => s.(pc := Exit0(Leave), outer := if s.outer > 0 then s.outer - 1 else 0)
    case Thread => ThreadStep(s)
    case Irq => s.(handler := Rx(0), log := s.log.(recent := 0, atEntry := s.log.overruns))
    case HandlerStep => HandlerStepped(s)
    case Arrive(b) =>
      var log := s.log.(arrived := s.log.arrived + [b], recent := s.log.recent + 1);
      if |s.hwRx| < DEPTH then s.(hwRx := s.hwRx + [b], log := log)
      else s.(ore := true, log := log.(lost := log.lost + 1, overruns := log.overruns + 1))
    case TxReady => s.(txe := true)
  }

  predicate ValidRun(s: Uart, run: seq<Step>)
    decreases run
  {
    run == [] || (CanStep(s, run[0]) && ValidRun(Stepped(s, run[0]), run[1..]))
  }

  function Ran(s: Uart, run: seq<Step>): Uart
    decreases run
  {
    if run == [] then s else Ran(Stepped(s, run[0]), run[1..])
  }

  // The invariant.

  predicate Inside(pc: Pc) { InPush(pc) || InTake(pc) || pc.Exit0? }

  ghost predicate MaskOk(mask: Critical.Mask, outer: nat, pc: Pc, handler: Handler) {
    && mask.nested == outer + (if Inside(pc) then 1 else 0)
    && (pc.Enter1? ==> pc.first == (mask.nested == 0))
    && mask.primask == (mask.nested > 0 || pc.Enter2? || pc.Exit1?)
    && (handler != Idle ==> !mask.primask)
  }

  /** The transmit queue between the statements of a push. */
  ghost predicate TxOk(pc: Pc, q: Queue) {
    match pc
    case Push1(rest) => Sound(q) && q.count < SIZE && rest != []
    case Push2(rest) => Sound(q) && q.count < SIZE && rest != [] && q.data[q.indexIn] == rest[0]
    case Push3(rest) =>
      && |q.data| == SIZE && q.count < SIZE && q.indexOut < SIZE && rest != []
      && q.indexIn == (q.indexOut + q.count) % SIZE + 1 && q.data[q.indexIn - 1] == rest[0]
    case Push4(rest) =>
      && |q.data| == SIZE && q.count < SIZE && q.indexOut < SIZE && rest != []
      && q.indexIn == (q.indexOut + q.count + 1) % SIZE && q.data[(q.indexOut + q.count) % SIZE] == rest[0]
    case _ => Sound(q)
  }

  /** Where the oldest undelivered byte is while a pull is under way. */
  function Head(pc: Pc, q: Queue): nat {
    if pc.Take4? then (if q.indexOut > 0 then q.indexOut - 1 else 0)
    else if pc.Take5? then (if q.indexOut == 0 then SIZE - 1 else q.indexOut - 1)
    else q.indexOut
  }

  /** The receive queue between the statements of a pull. */
  ghost predicate RxOk(pc: Pc, q: Queue) {
    && Sound(q.(indexOut := Head(pc, q)))
    && (pc.Take2? || pc.Take3? || pc.Take4? || pc.Take5? ==> q.count > 0)
    && (pc.Take3? || pc.Take4? || pc.Take5? ==> pc.b == q.data[Head(pc, q)])
    && (pc.Take4? ==> q.indexOut > 0) && (pc.Take5? ==> q.indexOut < SIZE)
  }

  /** What the running transmit call will still queue. */
  function Pending(pc: Pc, count: nat): seq<byte> {
    if InPush(pc) then Fitting(pc.rest, count) else []
  }

  /** The thread is between a push and its update of CR1. */
  predicate WillKick(pc: Pc) {
    InPush(pc) || pc == Exit0(Kick) || pc == Exit1(Kick) || pc.Cr0? || pc.Cr1?
  }

  ghost predicate TxInv(pc: Pc, q: Queue, txeie: bool, sent: seq<byte>, promised: seq<byte>) {
    && TxOk(pc, q)
    && sent + Bytes(q) + Pending(pc, q.count) == promised
    && (q.count > 0 ==> txeie || WillKick(pc))
  }

  /** xs is ys with some elements left out. */
  ghost predicate Subsequence(xs: seq<byte>, ys: seq<byte>) {
    if xs == [] then true
    else if ys == [] then false
    else
      var x, y := xs[|xs| - 1], ys[|ys| - 1];
      || (x == y && Subsequence(xs[..|xs| - 1], ys[..|ys| - 1]))
      || Subsequence(xs, ys[..|ys| - 1])
  }

  /** Everything received and not dropped, in the order in which it passes through the driver. */
  function Held(pc: Pc, q: Queue, hwRx: seq<byte>, delivered: seq<byte>): seq<byte>
    requires |q.data| == SIZE
  {
    delivered + Window(q.data, Head(pc, q), q.count) + hwRx
  }

  ghost predicate RxInv(pc: Pc, q: Queue, hwRx: seq<byte>, ore: bool, log: Log) {
    && RxOk(pc, q) && |hwRx| <= DEPTH
    && var held := Held(pc, q, hwRx, log.delivered);
       && Subsequence(held, log.arrived)
       && (log.lost == 0 ==> held == log.arrived && !ore)
  }

  ghost predicate Inv(s: Uart) {
    && MaskOk(s.mask, s.outer, s.pc, s.handler)
    && TxInv(s.pc, s.tx, s.txeie, s.log.sent, s.log.promised)
    && RxInv(s.pc, s.rx, s.hwRx, s.ore, s.log)
    && (s.handler.Rx? ==> s.handler.slot <= DEPTH)
  }

  lemma {:induction false} SubsequenceRefl(xs: seq<byte>)
    ensures Subsequence(xs, xs)
  {
    if xs != [] {
      SubsequenceRefl(xs[..|xs| - 1]);
    }
  }

  lemma SubsequenceArrive(xs: seq<byte>, ys: seq<byte>, b: byte)
    requires Subsequence(xs, ys)
    ensures Subsequence(xs, ys + [b]) && Subsequence(xs + [b], ys + [b])
  {
  }

  /** Leaving out one more element leaves a subsequence. */
  lemma {:induction false} SubsequenceLose(xs: seq<byte>, b: byte, zs: seq<byte>, ys: seq<byte>)
    requires Subsequence(xs + [b] + zs, ys)
    ensures Subsequence(xs + zs, ys)
    decreases ys
  {
    var all, less := xs + [b] + zs, xs + zs;
    assert ys != [];
    var front := ys[..|ys| - 1];
    if all[|all| - 1] == ys[|ys| - 1] && Subsequence(all[..|all| - 1], front) {
      if zs == [] {
        assert all[..|all| - 1] == less;
        SubsequenceSkip(less, ys);
      } else {
        assert all[..|all| - 1] == xs + [b] + zs[..|zs| - 1];
        SubsequenceLose(xs, b, zs[..|zs| - 1], front);
        assert less[..|less| - 1] == xs + zs[..|zs| - 1];
      }
    } else {
      SubsequenceLose(xs, b, zs, front);
      SubsequenceSkip(less, ys);
    }
  }

  lemma SubsequenceSkip(xs: seq<byte>, ys: seq<byte>)
    requires ys != [] && Subsequence(xs, ys[..|ys| - 1])
    ensures Subsequence(xs, ys)
  {
  }

  // Each step keeps the invariant.

  // What each group of statements touches.

  lemma PushFrame(s: Uart)
    requires InPush(s.pc)
    ensures var t := PushStep(s); t == s.(pc := t.pc, tx := t.tx) && (InPush(t.pc) || t.pc == Exit0(Kick))
  {
  }

  lemma TakeFrame(s: Uart)
    requires InTake(s.pc)
    ensures var t := TakeStep(s);
            && t == s.(pc := t.pc, rx := t.rx, log := s.log.(delivered := t.log.delivered))
            && (InTake(t.pc) || t.pc == Exit0(Done))
  {
  }

  /** The receive side does not care where the thread is outside a pull. */
  lemma RxElsewhere(pc: Pc, pc': Pc, q: Queue, hwRx: seq<byte>, ore: bool, log: Log, log': Log)
    requires RxInv(pc, q, hwRx, ore, log) && !InTake(pc)
    requires !pc'.Take2? && !pc'.Take3? && !pc'.Take4? && !pc'.Take5?
    requires log'.delivered == log.delivered && log'.arrived == log.arrived && log'.lost == log.lost
    ensures RxInv(pc', q, hwRx, ore, log')
  {
  }

  /** The transmit side does not care where the thread is outside a push, as long as TXEIE will still be set. */
  lemma TxElsewhere(pc: Pc, pc': Pc, q: Queue, txeie: bool, txeie': bool, sent: seq<byte>, promised: seq<byte>)
    requires TxInv(pc, q, txeie, sent, promised) && !InPush(pc) && !InPush(pc')
    requires (txeie ==> txeie') && (WillKick(pc) ==> txeie' || WillKick(pc'))
    ensures TxInv(pc', q, txeie', sent, promised)
  {
  }

  lemma MaskInSection(mask: Critical.Mask, outer: nat, pc: Pc, pc': Pc, handler: Handler)
    requires MaskOk(mask, outer, pc, handler) && Inside(pc) && Inside(pc')
    ensures MaskOk(mask, outer, pc', handler)
  {
  }

  /** enter_critical and exit_critical. */
  lemma SectionMask(s: Uart)
    requires MaskOk(s.mask, s.outer, s.pc, s.handler) && s.handler == Idle
    requires !InPush(s.pc) && !InTake(s.pc) && !s.pc.Cr0? && !s.pc.Cr1?
    ensures var t := SectionStep(s); MaskOk(t.mask, t.outer, t.pc, t.handler)
  {
    hide Fitting;
  }

  lemma SectionFrame(s: Uart)
    requires !InPush(s.pc) && !InTake(s.pc) && !s.pc.Cr0? && !s.pc.Cr1?
    ensures var t := SectionStep(s);
            && t == s.(pc := t.pc, mask := t.mask, outer := t.outer, log := s.log.(promised := t.log.promised))
            && !t.pc.Take2? && !t.pc.Take3? && !t.pc.Take4? && !t.pc.Take5?
            && (if s.pc.Enter2? && s.pc.job.Transmit? then
                  && t.pc == Loop(s.pc.job.buffer)
                  && t.log.promised == s.log.promised + Fitting(s.pc.job.buffer, s.tx.count)
                else !InPush(t.pc) && t.log.promised == s.log.promised && (WillKick(s.pc) ==> WillKick(t.pc)))
  {
    hide Fitting;
  }

  lemma SectionKeeps(s: Uart)
    requires Inv(s) && s.handler == Idle
    requires !InPush(s.pc) && !InTake(s.pc) && !s.pc.Cr0? && !s.pc.Cr1?
    ensures Inv(SectionStep(s))
  {
    var t := SectionStep(s);
    SectionMask(s);
    SectionFrame(s);
    hide SectionStep, MaskOk, TxInv, RxInv, Fitting;
    RxElsewhere(s.pc, t.pc, s.rx, s.hwRx, s.ore, s.log, t.log);
    if t.pc.Loop? {
      PromiseKeepsTx(s.pc, s.tx, s.txeie, s.log.sent, s.log.promised, t.pc.rest);
    } else {
      TxElsewhere(s.pc, t.pc, s.tx, s.txeie, s.txeie, s.log.sent, s.log.promised);
    }
  }

  /** The buffer a call brings is promised as far as it fits. */
  lemma PromiseKeepsTx(pc: Pc, q: Queue, txeie: bool, sent: seq<byte>, promised: seq<byte>, buffer: seq<byte>)
    requires TxInv(pc, q, txeie, sent, promised) && !InPush(pc)
    ensures TxInv(Loop(buffer), q, txeie, sent, promised + Fitting(buffer, q.count))
  {
  }

  lemma KickKeeps(s: Uart)
    requires Inv(s) && s.handler == Idle && (s.pc.Cr0? || s.pc.Cr1?)
    ensures Inv(KickStep(s))
  {
    hide TxInv, RxInv;
    var t := KickStep(s);
    RxElsewhere(s.pc, t.pc, s.rx, s.hwRx, s.ore, s.log, t.log);
    TxElsewhere(s.pc, t.pc, s.tx, s.txeie, t.txeie, s.log.sent, s.log.promised);
  }

  lemma StoreKeepsTx(s: Uart)
    requires TxInv(s.pc, s.tx, s.txeie, s.log.sent, s.log.promised) && s.pc.Push1?
    ensures var t := PushStep(s); TxInv(t.pc, t.tx, t.txeie, t.log.sent, t.log.promised)
  {
    hide Fitting;
    var q := s.tx;
    WindowAppend(q.data, q.indexOut, q.count, s.pc.rest[0]);
    hide Window;
  }

  lemma IndexKeepsTx(s: Uart)
    requires TxInv(s.pc, s.tx, s.txeie, s.log.sent, s.log.promised) && (s.pc.Push2? || s.pc.Push3?)
    ensures var t := PushStep(s); TxInv(t.pc, t.tx, t.txeie, t.log.sent, t.log.promised)
  {
    hide Fitting, Window;
  }

  /** The last statement of a push makes the stored byte part of the queue. */
  lemma CountKeepsTx(s: Uart)
    requires TxInv(s.pc, s.tx, s.txeie, s.log.sent, s.log.promised) && s.pc.Push4?
    ensures var t := PushStep(s); TxInv(t.pc, t.tx, t.txeie, t.log.sent, t.log.promised)
  {
    hide Fitting;
    var q, rest := s.tx, s.pc.rest;
    WindowAppend(q.data, q.indexOut, q.count, rest[0]);
    assert q.data[(q.indexOut + q.count) % SIZE := rest[0]] == q.data;
    FittingHead(rest, q.count);
    hide Window;
    var w := Bytes(q);
    assert s.log.sent + w + ([rest[0]] + Fitting(rest[1..], q.count + 1))
        == s.log.sent + (w + [rest[0]]) + Fitting(rest[1..], q.count + 1);
  }

  lemma PushKeepsTx(s: Uart)
    requires TxInv(s.pc, s.tx, s.txeie, s.log.sent, s.log.promised) && InPush(s.pc)
    ensures var t := PushStep(s); TxInv(t.pc, t.tx, t.txeie, t.log.sent, t.log.promised)
  {
    if s.pc.Loop? {
      LoopKeepsTx(s);
    } else if s.pc.Push1? {
      StoreKeepsTx(s);
    } else if s.pc.Push4? {
      CountKeepsTx(s);
    } else {
      IndexKeepsTx(s);
    }
    hide TxInv, PushStep;
  }

  lemma FittingHead(rest: seq<byte>, count: nat)
    requires rest != [] && count < SIZE
    ensures Fitting(rest, count) == [rest[0]] + Fitting(rest[1..], count + 1)
  {
  }

  /** The loop head drops what does not fit. */
  lemma LoopKeepsTx(s: Uart)
    requires TxInv(s.pc, s.tx, s.txeie, s.log.sent, s.log.promised) && s.pc.Loop?
    ensures var t := PushStep(s); TxInv(t.pc, t.tx, t.txeie, t.log.sent, t.log.promised)
  {
    hide Window;
  }

  lemma PushKeeps(s: Uart)
    requires Inv(s) && s.handler == Idle && InPush(s.pc)
    ensures Inv(PushStep(s))
  {
    var t := PushStep(s);
    PushKeepsTx(s);
    PushFrame(s);
    hide PushStep, TxInv, RxInv, MaskOk;
    RxElsewhere(s.pc, t.pc, s.rx, s.hwRx, s.ore, s.log, t.log);
    MaskInSection(s.mask, s.outer, s.pc, t.pc, s.handler);
  }

  /** The last statement of a pull takes the loaded byte out of the queue. */
  lemma TakenKeepsRx(s: Uart)
    requires RxInv(s.pc, s.rx, s.hwRx, s.ore, s.log) && s.pc.Take5?
    ensures var t := TakeStep(s); RxInv(t.pc, t.rx, t.hwRx, t.ore, t.log)
  {
    hide Subsequence;
    var q, o, b := s.rx, Head(s.pc, s.rx), s.pc.b;
    WindowDrop(q.data, o, q.count);
    assert q.indexOut == (o + 1) % SIZE;
    var w, v := Window(q.data, o, q.count), Window(q.data, q.indexOut, q.count - 1);
    hide Window;
    assert w == [b] + v;
    assert s.log.delivered + ([b] + v) + s.hwRx == s.log.delivered + [b] + v + s.hwRx;
  }

  lemma TakeKeepsRx(s: Uart)
    requires RxInv(s.pc, s.rx, s.hwRx, s.ore, s.log) && InTake(s.pc)
    ensures var t := TakeStep(s); RxInv(t.pc, t.rx, t.hwRx, t.ore, t.log)
  {
    hide Subsequence, Window;
    if s.pc.Take5? {
      TakenKeepsRx(s);
      hide RxInv, TakeStep;
    } else {
      var t := TakeStep(s);
      assert Head(t.pc, t.rx) == Head(s.pc, s.rx);
    }
  }

  lemma TakeKeeps(s: Uart)
    requires Inv(s) && s.handler == Idle && InTake(s.pc)
    ensures Inv(TakeStep(s))
  {
    var t := TakeStep(s);
    TakeKeepsRx(s);
    TakeFrame(s);
    hide TakeStep, TxInv, RxInv, MaskOk;
    TxElsewhere(s.pc, t.pc, s.tx, s.txeie, s.txeie, s.log.sent, s.log.promised);
    MaskInSection(s.mask, s.outer, s.pc, t.pc, s.handler);
  }

  lemma ThreadKeeps(s: Uart)
    requires Inv(s) && s.handler == Idle
    ensures Inv(ThreadStep(s))
  {
    if InPush(s.pc) {
      PushKeeps(s);
    } else if InTake(s.pc) {
      TakeKeeps(s);
    } else if s.pc.Cr0? || s.pc.Cr1? {
      KickKeeps(s);
    } else {
      SectionKeeps(s);
    }
    hide Inv;
  }

  /** One byte moves from the queue to TDR. */
  lemma SendKeepsTx(pc: Pc, q: Queue, txeie: bool, sent: seq<byte>, promised: seq<byte>)
    requires TxInv(pc, q, txeie, sent, promised) && !InPush(pc) && q.count > 0
    ensures TxInv(pc, Drop(q), txeie, sent + [Front(q)], promised)
  {
    FrontAndRest(q);
    var w := Bytes(Drop(q));
    hide Window, Fitting, Drop, Front, Bytes;
    assert sent + ([Front(q)] + w) == sent + [Front(q)] + w;
  }

  lemma FrontAndRest(q: Queue)
    requires Sound(q) && q.count > 0
    ensures Sound(Drop(q)) && Bytes(q) == [Front(q)] + Bytes(Drop(q)) && Drop(q).count == q.count - 1
  {
    WindowDrop(q.data, q.indexOut, q.count);
  }

  lemma HandlerKeepsTx(s: Uart)
    requires TxInv(s.pc, s.tx, s.txeie, s.log.sent, s.log.promised) && !Inside(s.pc) && s.handler != Idle
    ensures var t := HandlerStepped(s); TxInv(t.pc, t.tx, t.txeie, t.log.sent, t.log.promised)
  {
    if s.handler == Tx && s.txe && s.txeie && s.tx.count > 0 {
      SendKeepsTx(s.pc, s.tx, s.txeie, s.log.sent, s.log.promised);
      hide TxInv, Drop, Front;
    } else {
      hide Window, Fitting;
    }
  }

  /** One slot of the drain loop: the byte moves into the queue, or is dropped when the queue is full. */
  lemma SlotKeepsRx(s: Uart)
    requires RxInv(s.pc, s.rx, s.hwRx, s.ore, s.log) && !Inside(s.pc)
    requires s.handler.Rx? && s.handler.slot < DEPTH && s.hwRx != []
    ensures var t := HandlerStepped(s); RxInv(t.pc, t.rx, t.hwRx, t.ore, t.log)
  {
    var b, t := s.hwRx[0], HandlerStepped(s);
    var d, w := s.log.delivered, Window(s.rx.data, s.rx.indexOut, s.rx.count);
    assert Head(s.pc, s.rx) == s.rx.indexOut && Head(t.pc, t.rx) == t.rx.indexOut;
    if s.rx.count < SIZE {
      WindowAppend(s.rx.data, s.rx.indexOut, s.rx.count, b);
      SlotMoved(d, w, b, s.hwRx);
    } else {
      SlotDropped(d, w, b, s.hwRx, s.log.arrived);
    }
    hide Subsequence, Window;
  }

  lemma SlotMoved(d: seq<byte>, w: seq<byte>, b: byte, hwRx: seq<byte>)
    requires hwRx != [] && b == hwRx[0]
    ensures d + (w + [b]) + hwRx[1..] == d + w + hwRx
  {
    assert hwRx == [b] + hwRx[1..];
  }

  lemma SlotDropped(d: seq<byte>, w: seq<byte>, b: byte, hwRx: seq<byte>, arrived: seq<byte>)
    requires hwRx != [] && b == hwRx[0] && Subsequence(d + w + hwRx, arrived)
    ensures Subsequence(d + w + hwRx[1..], arrived)
  {
    hide Subsequence;
    assert d + w + hwRx == d + w + [b] + hwRx[1..];
    SubsequenceLose(d + w, b, hwRx[1..], arrived);
  }

  lemma HandlerKeepsRx(s: Uart)
    requires RxInv(s.pc, s.rx, s.hwRx, s.ore, s.log) && !Inside(s.pc) && s.handler != Idle
    ensures var t := HandlerStepped(s); RxInv(t.pc, t.rx, t.hwRx, t.ore, t.log)
  {
    if s.handler.Rx? && s.handler.slot < DEPTH && s.hwRx != [] {
      SlotKeepsRx(s);
    } else {
      hide Window, Subsequence, Sound;
    }
  }

  lemma ArrivalKeepsRx(s: Uart, b: byte)
    requires RxInv(s.pc, s.rx, s.hwRx, s.ore, s.log)
    ensures var t := Stepped(s, Arrive(b)); RxInv(t.pc, t.rx, t.hwRx, t.ore, t.log)
  {
    assert |s.rx.data| == SIZE;
    hide Subsequence, RxOk, Window, Head;
    Arrived(s.log.delivered + Window(s.rx.data, Head(s.pc, s.rx), s.rx.count), s.hwRx, s.log.arrived, b);
  }

  lemma Arrived(xs: seq<byte>, hwRx: seq<byte>, arrived: seq<byte>, b: byte)
    requires Subsequence(xs + hwRx, arrived)
    ensures Subsequence(xs + hwRx, arrived + [b]) && Subsequence(xs + (hwRx + [b]), arrived + [b])
    ensures xs + hwRx == arrived ==> xs + (hwRx + [b]) == arrived + [b]
  {
    SubsequenceArrive(xs + hwRx, arrived, b);
    hide Subsequence;
    assert xs + (hwRx + [b]) == xs + hwRx + [b];
  }

  lemma CallKeepsInv(s: Uart, step: Step)
    requires Inv(s) && CanStep(s, step) && (step.Call? || step.LeaveSection?)
    ensures Inv(Stepped(s, step))
  {
    hide TxInv, RxInv;
    var t := Stepped(s, step);
    RxElsewhere(s.pc, t.pc, s.rx, s.hwRx, s.ore, s.log, t.log);
    TxElsewhere(s.pc, t.pc, s.tx, s.txeie, s.txeie, s.log.sent, s.log.promised);
  }

  lemma IrqKeepsRx(s: Uart)
    requires RxInv(s.pc, s.rx, s.hwRx, s.ore, s.log)
    ensures RxInv(s.pc, s.rx, s.hwRx, s.ore, s.log.(recent := 0, atEntry := s.log.overruns))
  {
  }

  /** Every thread statement, handler step and hardware event keeps the invariant. */
  lemma {:induction false} StepKeepsInv(s: Uart, step: Step)
    requires Inv(s) && CanStep(s, step)
    ensures Inv(Stepped(s, step))
  {
    hide TxInv, RxInv;
    match step
    case Call(_) => CallKeepsInv(s, step);
    case LeaveSection => CallKeepsInv(s, step);
    case Thread => ThreadKeeps(s);
    case HandlerStep =>
      assert !Inside(s.pc);
      HandlerKeepsTx(s);
      HandlerKeepsRx(s);
    case Arrive(b) => ArrivalKeepsRx(s, b);
    case Irq => IrqKeepsRx(s);
    case TxReady =>
  }

  lemma {:induction false} RunKeepsInv(s: Uart, run: seq<Step>)
    requires Inv(s) && ValidRun(s, run)
    ensures Inv(Ran(s, run))
    decreases run
  {
    if run != [] {
      StepKeepsInv(s, run[0]);
      RunKeepsInv(Stepped(s, run[0]), run[1..]);
    }
  }

  lemma FreshInv(s: Uart)
    requires Fresh(s)
    ensures Inv(s)
  {
  }

  // What the invariant means.

  /** The bytes accepted for transmission and not yet written to TDR. */
  function TxBacklog(s: Uart): seq<byte>
    requires |s.tx.data| == SIZE
  {
    Bytes(s.tx) + Pending(s.pc, s.tx.count)
  }

  /** In every interleaving: the handler never meets a queue between two statements of a push or a pull; bytes written
      to TDR, then the queue, then what the running call still has to push, are exactly what the calls promised, in
      order; and a non-empty queue has TXEIE set or a thread on its way to set it. */
  lemma TransmitIsSafe(s: Uart, run: seq<Step>)
    requires Fresh(s) && ValidRun(s, run)
    ensures var t := Ran(s, run);
            && (t.handler != Idle ==> Sound(t.tx) && Sound(t.rx) && !Inside(t.pc) && t.mask == Critical.Mask(0, false))
            && |t.tx.data| == SIZE && t.tx.count <= SIZE
            && t.log.sent + TxBacklog(t) == t.log.promised
            && (t.tx.count > 0 ==> t.txeie || WillKick(t.pc))
            && (t.tx.count > 0 && t.pc == Outside ==> t.txeie)
  {
    FreshInv(s);
    RunKeepsInv(s, run);
    var t := Ran(s, run);
    assert TxOk(t.pc, t.tx);
    assert t.log.sent + Bytes(t.tx) + Pending(t.pc, t.tx.count) == t.log.sent + TxBacklog(t);
  }

  /** In every interleaving: bytes delivered, then the software queue, then the hardware FIFO, are the arrivals in
      order with some left out, and all of them if none was dropped. */
  lemma ReceiveIsInOrder(s: Uart, run: seq<Step>)
    requires Fresh(s) && ValidRun(s, run)
    ensures var t := Ran(s, run);
            && |t.rx.data| == SIZE
            && Subsequence(Held(t.pc, t.rx, t.hwRx, t.log.delivered), t.log.arrived)
            && (t.log.lost == 0 ==> Held(t.pc, t.rx, t.hwRx, t.log.delivered) == t.log.arrived)
  {
    FreshInv(s);
    RunKeepsInv(s, run);
  }

  // No byte is dropped under a discipline on arrivals and readers.

  /** Bytes arrive only between handler entries, at most 8 between two entries, and the software queue is not full when
      the handler moves a byte. */
  predicate Disciplined(s: Uart, step: Step) {
    && (step.Arrive? ==> s.handler == Idle && s.log.recent < DEPTH)
    && (step.HandlerStep? && s.handler.Rx? && s.handler.slot < DEPTH && s.hwRx != [] ==> s.rx.count < SIZE)
  }

  predicate DisciplinedRun(s: Uart, run: seq<Step>)
    decreases run
  {
    run == [] || (CanStep(s, run[0]) && Disciplined(s, run[0]) && DisciplinedRun(Stepped(s, run[0]), run[1..]))
  }

  predicate Lossless(s: Uart) {
    && s.log.lost == 0
    && (if s.handler == Idle then |s.hwRx| <= s.log.recent <= DEPTH
        else if s.handler.Rx? then s.log.recent == 0 && |s.hwRx| + s.handler.slot <= DEPTH
        else s.log.recent == 0 && s.hwRx == [])
  }

  lemma {:induction false} DisciplineKeepsLossless(s: Uart, run: seq<Step>)
    requires Lossless(s) && DisciplinedRun(s, run)
    ensures ValidRun(s, run) && Lossless(Ran(s, run))
    decreases run
  {
    if run != [] {
      DisciplinedStep(s, run[0]);
      DisciplineKeepsLossless(Stepped(s, run[0]), run[1..]);
    }
  }

  lemma DisciplinedStep(s: Uart, step: Step)
    requires Lossless(s) && CanStep(s, step) && Disciplined(s, step)
    ensures Lossless(Stepped(s, step))
  {
    if step.Thread? {
      ThreadLeavesHardware(s);
      hide ThreadStep;
    }
  }

  lemma ThreadLeavesHardware(s: Uart)
    ensures var t := ThreadStep(s);
            && t.hwRx == s.hwRx && t.handler == s.handler && t.log.lost == s.log.lost && t.log.recent == s.log.recent
            && t.ore == s.ore && t.log.overruns == s.log.overruns && t.log.atEntry == s.log.atEntry
            && t.log.atRead == s.log.atRead
  {
    hide Fitting, PushStep, TakeStep, SectionStep;
    if InPush(s.pc) {
      PushFrame(s);
    } else if InTake(s.pc) {
      TakeFrame(s);
    } else if !s.pc.Cr0? && !s.pc.Cr1? {
      SectionFrame(s);
    }
  }

  /** Under the discipline every arrival is delivered or still held, in order, and no overrun is latched. */
  lemma NothingIsLost(s: Uart, run: seq<Step>)
    requires Fresh(s) && DisciplinedRun(s, run)
    ensures ValidRun(s, run)
    ensures var t := Ran(s, run);
            && |t.rx.data| == SIZE && !t.ore
            && Held(t.pc, t.rx, t.hwRx, t.log.delivered) == t.log.arrived
  {
    DisciplineKeepsLossless(s, run);
    FreshInv(s);
    RunKeepsInv(s, run);
  }

  /** One byte more than the hardware FIFO holds is lost. */
  lemma NineArrivalsOverrun(s: Uart, bytes: seq<byte>)
    requires Fresh(s) && |bytes| == DEPTH + 1
    ensures var run := seq(DEPTH + 1, i requires 0 <= i < DEPTH + 1 => Arrive(bytes[i]));
            ValidRun(s, run) && Ran(s, run).log.lost == 1 && Ran(s, run).ore && Ran(s, run).hwRx == bytes[..DEPTH]
  {
    var run := seq(DEPTH + 1, i requires 0 <= i < DEPTH + 1 => Arrive(bytes[i]));
    Arrivals(s, bytes, 0);
    assert run[0..] == run && bytes[..0] == [];
  }

  lemma {:induction false} Arrivals(s: Uart, bytes: seq<byte>, n: nat)
    requires |bytes| == DEPTH + 1 && n <= DEPTH + 1
    requires s.hwRx == bytes[..if n < DEPTH then n else DEPTH]
    requires s.log.lost == (if n <= DEPTH then 0 else 1) && (n == DEPTH + 1 ==> s.ore)
    ensures var run := seq(DEPTH + 1, i requires 0 <= i < DEPTH + 1 => Arrive(bytes[i]))[n..];
            ValidRun(s, run) && Ran(s, run).log.lost == 1 && Ran(s, run).ore && Ran(s, run).hwRx == bytes[..DEPTH]
    decreases DEPTH + 1 - n
  {
    var run := seq(DEPTH + 1, i requires 0 <= i < DEPTH + 1 => Arrive(bytes[i]));
    if n <= DEPTH {
      assert run[n..][0] == Arrive(bytes[n]) && run[n..][1..] == run[n + 1..];
      if n < DEPTH {
        assert bytes[..n] + [bytes[n]] == bytes[..n + 1];
      }
      Arrivals(Stepped(s, Arrive(bytes[n])), bytes, n + 1);
    } else {
      assert run[n..] == [];
    }
  }

  // Bounded handler entries and progress of the transmitter.

  /** Handler steps still to come in this entry. */
  function StepsToReturn(h: Handler): nat {
    match h
    case Idle => 0
    case Return => 1
    case Clear => 2
    case Overrun => 3
    case Tx => 4
    case Rx(slot) => if slot <= DEPTH then DEPTH - slot + 5 else 5
  }

  /** Each handler step brings the return nearer, whatever arrives meanwhile: an entry takes at most 8 slots. */
  lemma HandlerReturns(s: Uart)
    requires Inv(s) && s.handler != Idle
    ensures StepsToReturn(HandlerStepped(s).handler) < StepsToReturn(s.handler) <= DEPTH + 5
  {
  }

  /** ORE is set only by overruns that came after the handler's last read of it, or is about to be cleared. */
  predicate OreInv(s: Uart) {
    && s.log.atRead <= s.log.overruns && s.log.atEntry <= s.log.overruns
    && (s.ore ==> s.handler == Clear || s.log.atRead < s.log.overruns)
    && (s.handler == Idle || s.handler == Clear || s.handler == Return ==> s.log.atEntry <= s.log.atRead)
  }

  lemma OreStep(s: Uart, step: Step)
    requires OreInv(s) && CanStep(s, step)
    ensures OreInv(Stepped(s, step)) && s.log.atEntry <= Stepped(s, step).log.atEntry
  {
    if step.Thread? {
      ThreadLeavesHardware(s);
      hide ThreadStep;
    }
  }

  lemma {:induction false} OreRun(s: Uart, run: seq<Step>)
    requires OreInv(s) && ValidRun(s, run)
    ensures OreInv(Ran(s, run)) && s.log.atEntry <= Ran(s, run).log.atEntry
    decreases run
  {
    hide OreInv, Stepped, CanStep;
    if run != [] {
      OreStep(s, run[0]);
      OreRun(Stepped(s, run[0]), run[1..]);
    }
  }

  /** In every interleaving: when a handler entry is about to return or has returned with ORE set, an overrun came after
      that entry had read ISR; every overrun latched before the read has been cleared. */
  lemma OverrunsAreCleared(s: Uart, run: seq<Step>)
    requires Fresh(s) && ValidRun(s, run)
    ensures var t := Ran(s, run);
            t.ore && (t.handler == Return || t.handler == Idle) ==> t.log.atEntry <= t.log.atRead < t.log.overruns
  {
    OreRun(s, run);
  }

  /** The next entry clears what an entry left: whatever the run, once that entry is about to return or a later one is,
      ORE is set only if an overrun came after it had begun. */
  lemma NextEntryClears(s: Uart, before: seq<Step>, run: seq<Step>)
    requires Fresh(s) && ValidRun(s, before) && CanStep(Ran(s, before), Irq)
    requires ValidRun(Stepped(Ran(s, before), Irq), run)
    ensures var m, t := Ran(s, before), Ran(Stepped(Ran(s, before), Irq), run);
            t.ore && (t.handler == Return || t.handler == Idle) ==> m.log.overruns < t.log.overruns
  {
    OreRun(s, before);
    OreStep(Ran(s, before), Irq);
    OreRun(Stepped(Ran(s, before), Irq), run);
  }

  /** A byte that finds the hardware FIFO full between the read of ISR and the return leaves ORE set at the return. */
  lemma LateOverrunStays(s: Uart, b: byte)
    requires s.handler == Return && |s.hwRx| >= DEPTH
    ensures ValidRun(s, [Arrive(b), HandlerStep])
    ensures Ran(s, [Arrive(b), HandlerStep]).handler == Idle && Ran(s, [Arrive(b), HandlerStep]).ore
  {
    var t := Stepped(s, Arrive(b));
    assert t.handler == Return && t.ore && Stepped(t, HandlerStep) == t.(handler := Idle);
    hide Stepped;
    assert [Arrive(b), HandlerStep][1..] == [HandlerStep] && [HandlerStep][1..] == [];
  }

  /** (queue length, TXEIE) falls lexicographically whenever the handler serves the transmitter. */
  lemma ServiceFalls(s: Uart)
    requires Inv(s) && s.handler == Tx && s.txe && s.txeie
    ensures var t := HandlerStepped(s);
            || (t.tx.count < s.tx.count && t.txeie && t.log.sent == s.log.sent + Bytes(s.tx)[..1])
            || (t.tx.count == s.tx.count == 0 && !t.txeie && t.log.sent == s.log.sent)
  {
    assert TxOk(s.pc, s.tx);
    if s.tx.count > 0 {
      WindowDrop(s.tx.data, s.tx.indexOut, s.tx.count);
    }
  }

  predicate Serves(s: Uart, step: Step) { step.HandlerStep? && s.handler == Tx && s.txe && s.txeie }

  function Services(s: Uart, run: seq<Step>): nat
    decreases run
  {
    if run == [] then 0 else (if Serves(s, run[0]) then 1 else 0) + Services(Stepped(s, run[0]), run[1..])
  }

  predicate NoThread(run: seq<Step>) {
    forall i :: 0 <= i < |run| ==> !run[i].Thread? && !run[i].Call? && !run[i].LeaveSection?
  }

  /** While the thread makes no call, the queue shrinks by one at each service until it is empty, TXEIE staying set. */
  lemma {:induction false} QueueDrains(s: Uart, run: seq<Step>)
    requires Inv(s) && s.pc == Outside && NoThread(run) && ValidRun(s, run)
    ensures var t := Ran(s, run);
            && Inv(t) && t.pc == Outside && t.log.promised == s.log.promised
            && t.tx.count == (if Services(s, run) < s.tx.count then s.tx.count - Services(s, run) else 0)
            && (t.tx.count > 0 ==> t.txeie)
    decreases run
  {
    if run != [] {
      StepKeepsInv(s, run[0]);
      var t := Stepped(s, run[0]);
      if Serves(s, run[0]) {
        ServiceFalls(s);
      }
      IdleThreadStep(s, run[0]);
      assert NoThread(run[1..]);
      hide Inv, Stepped, CanStep, HandlerStepped;
      QueueDrains(t, run[1..]);
    }
  }

  lemma IdleThreadStep(s: Uart, step: Step)
    requires CanStep(s, step) && s.pc == Outside && !step.Thread? && !step.Call? && !step.LeaveSection?
    ensures var t := Stepped(s, step);
            && t.pc == Outside && t.log.promised == s.log.promised && (!Serves(s, step) ==> t.tx.count == s.tx.count)
  {
  }

  /** Everything promised is sent: after as many services as the queue held bytes, TDR has seen every promised byte; and
      until then the transmit interrupt is enabled and, outside critical sections, can be taken. */
  lemma EverythingIsSent(s: Uart, before: seq<Step>, run: seq<Step>)
    requires Fresh(s) && ValidRun(s, before) && Ran(s, before).pc == Outside
    requires NoThread(run) && ValidRun(Ran(s, before), run)
    ensures var m := Ran(s, before);
            var t := Ran(m, run);
            && (Services(m, run) >= m.tx.count ==> t.log.sent == m.log.promised && t.tx.count == 0)
            && (t.tx.count > 0 ==> t.txeie && (t.outer == 0 ==> CanStep(t, Irq) || CanStep(t, HandlerStep)))
  {
    FreshInv(s);
    RunKeepsInv(s, before);
    QueueDrains(Ran(s, before), run);
  }
}
