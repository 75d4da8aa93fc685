/** quasar_i2c_write and quasar_i2c_read above the engine, statement by statement: what a call entered while no transfer
    runs does in every interleaving with handler and hardware, and what sessions of calls put on the bus. */
module I2cCalls {
  import opened Words
  import opened Ring
  import opened Fifo
  import opened I2cBus
  import opened I2cEngine

  // What the unchecked pushes of a call leave in the queue.

  function TryPush(queue: seq<byte>, b: byte): seq<byte> {
    if |queue| >= SIZE then queue else queue + [b]
  }

  function TryPushAll(queue: seq<byte>, s: seq<byte>): seq<byte> {
    if |queue| + |s| >= SIZE then queue else queue + s
  }

  /** The first critical section of a call: all of a write, header and register of a read. */
  function PushedFirst(queue: seq<byte>, x: Xfer): seq<byte> {
    match x
    case WriteReg(dev, reg, value) => TryPush(TryPush(TryPushAll(queue, Queued(Cr2(2, false, dev))), reg), value)
    case ReadReg(dev, reg, _) => TryPush(TryPushAll(queue, Queued(Cr2(1, false, dev))), reg)
  }

  /** The second critical section of a read: read header and pointer. */
  function PushedSecond(queue: seq<byte>, x: Xfer): seq<byte> {
    match x
    case WriteReg(_, _, _) => queue
    case ReadReg(dev, _, ptr) => TryPushAll(TryPushAll(queue, Queued(Cr2(1, true, dev))), Queued(ptr))
  }

  function FirstPart(x: Xfer): seq<byte> {
    match x
    case WriteReg(_, _, _) => Frame(x)
    case ReadReg(dev, reg, _) => Queued(Cr2(1, false, dev)) + [reg]
  }

  function SecondPart(x: Xfer): seq<byte> {
    match x
    case WriteReg(_, _, _) => []
    case ReadReg(dev, _, ptr) => Queued(Cr2(1, true, dev)) + Queued(ptr)
  }

  lemma FrameParts(x: Xfer)
    ensures Frame(x) == FirstPart(x) + SecondPart(x)
  {
    hide Queued, Cr2;
    if x.ReadReg? {
      var a, b, c, d := Queued(Cr2(1, false, x.dev)), [x.reg], Queued(Cr2(1, true, x.dev)), Queued(x.ptr);
      assert a + b + c + d == a + b + (c + d);
    }
  }

  /** The room a frame needs: the batch pushes of a read refuse the last free byte. */
  predicate Fits(queue: seq<byte>, x: Xfer) {
    if x.WriteReg? then |queue| + 6 <= SIZE else |queue| + 13 < SIZE
  }

  /** A call queues its whole frame exactly when it fits; otherwise it silently queues a torn frame. */
  lemma FrameQueuedIffFits(queue: seq<byte>, x: Xfer)
    requires |queue| <= SIZE
    ensures Fits(queue, x) <==> PushedSecond(PushedFirst(queue, x), x) == queue + Frame(x)
  {
    hide Cr2, Queued;
    match x
    case WriteReg(dev, reg, value) =>
      var w := Queued(Cr2(2, false, dev));
      assert queue + (w + [reg] + [value]) == queue + w + [reg] + [value];
    case ReadReg(dev, reg, ptr) =>
      var w, r, p := Queued(Cr2(1, false, dev)), Queued(Cr2(1, true, dev)), Queued(ptr);
      assert queue + (w + [reg] + r + p) == queue + w + [reg] + r + p;
  }

  /** Enough room for the pushes of section `pc`, also when the queue gets shorter before they are made. */
  predicate Room(queue: seq<byte>, x: Xfer, pc: Pc) {
    if pc == First then Fits(queue, x) else if pc == Second then |queue| + 8 < SIZE else true
  }

  lemma FirstFits(queue: seq<byte>, x: Xfer)
    requires Fits(queue, x)
    ensures PushedFirst(queue, x) == queue + FirstPart(x)
    ensures x.ReadReg? ==> |PushedFirst(queue, x)| + 8 < SIZE
  {
    hide Cr2, Queued;
    if x.WriteReg? {
      var w := Queued(Cr2(2, false, x.dev));
      assert queue + (w + [x.reg] + [x.value]) == queue + w + [x.reg] + [x.value];
    } else {
      var w := Queued(Cr2(1, false, x.dev));
      assert queue + (w + [x.reg]) == queue + w + [x.reg];
    }
  }

  lemma SecondFits(queue: seq<byte>, x: Xfer)
    requires x.ReadReg? && |queue| + 8 < SIZE
    ensures PushedSecond(queue, x) == queue + SecondPart(x)
  {
    hide Cr2, Queued;
    var r, p := Queued(Cr2(1, true, x.dev)), Queued(x.ptr);
    assert queue + (r + p) == queue + r + p;
  }

  // A call, one step for each critical section, each read of ISR and each register write.

  const BUSY_READS := 250

  datatype Pc = First | Second | Polling(polls: nat) | Loading | Starting | Returned(ok: bool)

  datatype Caller = Caller(sys: Sys, x: Xfer, pc: Pc)

  datatype CallStep = Engine(step: Step) | Thread

  /** The pull of the header and its write to CR2, one critical section. */
  function Loaded(s: Sys): Sys {
    s.(fifo := Rest(s.fifo, 4), hw := WriteCr2(s.hw, Pulled(s.fifo)))
  }

  function Launch(s: Sys): Sys { Loaded(s).(hw := SetStart(Loaded(s).hw)) }

  function ThreadStep(c: Caller): Caller {
    var s := c.sys;
    match c.pc
    case First =>
      c.(sys := s.(fifo := PushedFirst(s.fifo, c.x)), pc := if c.x.ReadReg? then Second else Polling(0))
    case Second => c.(sys := s.(fifo := PushedSecond(s.fifo, c.x)), pc := Polling(0))
    case Polling(polls) =>
      if polls + 1 >= BUSY_READS then c.(pc := Returned(false))
      else c.(pc := if s.hw.Busy() then Polling(polls + 1) else Loading)
    case Loading => c.(sys := Loaded(s), pc := Starting)
    case Starting => c.(sys := s.(hw := SetStart(s.hw)), pc := Returned(true))
    case Returned(_) => c
  }

  /** A call begins with its first critical section; the thread runs while no handler entry is under way. */
  predicate CanCall(c: Caller, step: CallStep) {
    match step
    case Engine(e) => c.pc != First && !c.pc.Returned? && CanStep(c.sys, e)
    case Thread => !c.pc.Returned? && c.sys.isr.None?
  }

  function Called(c: Caller, step: CallStep, slave: Slave): Caller
    requires CanCall(c, step)
  {
    match step
    case Engine(e) => c.(sys := Stepped(c.sys, e, slave))
    case Thread => ThreadStep(c)
  }

  predicate ValidCall(c: Caller, run: seq<CallStep>, slave: Slave)
    decreases run
  {
    run == [] || (CanCall(c, run[0]) && ValidCall(Called(c, run[0], slave), run[1..], slave))
  }

  function CallRan(c: Caller, run: seq<CallStep>, slave: Slave): Caller
    requires ValidCall(c, run, slave)
    decreases run
  {
    if run == [] then c else CallRan(Called(c, run[0], slave), run[1..], slave)
  }

  lemma {:induction false} CallConcat(c: Caller, a: seq<CallStep>, b: seq<CallStep>, slave: Slave)
    requires ValidCall(c, a, slave) && ValidCall(CallRan(c, a, slave), b, slave)
    ensures ValidCall(c, a + b, slave) && CallRan(c, a + b, slave) == CallRan(CallRan(c, a, slave), b, slave)
    decreases a
  {
    if a == [] {
      assert a + b == b;
    } else {
      assert (a + b)[1..] == a[1..] + b;
      CallConcat(Called(c, a[0], slave), a[1..], b, slave);
    }
  }

  /** The engine only takes bytes out of the queue. */
  lemma QueueShrinks(s: Sys, step: Step, slave: Slave)
    requires CanStep(s, step)
    ensures |Stepped(s, step, slave).fifo| <= |s.fifo|
  {
    hide Pulled, Apply, Enabled;
  }

  // Calls entered while no transfer runs.

  /** The trace once an outstanding STOP is out. */
  function Shown(h: Hw): seq<Event> { if h.stop then h.bus + [Stop] else h.bus }

  /** No transfer is running or requested; the queue holds the frames of calls that gave up waiting for the bus. */
  ghost predicate Quiet(s: Sys, xs: seq<Xfer>) {
    Closing(s.hw, Shown(s.hw)) && s.fifo == Frames(xs) && s.isr.None?
  }

  lemma {:induction false} FramesAppend(xs: seq<Xfer>, ys: seq<Xfer>)
    ensures Frames(xs + ys) == Frames(xs) + Frames(ys)
  {
    if xs == [] {
      assert xs + ys == ys;
    } else {
      assert (xs + ys)[1..] == xs[1..] + ys;
      FramesAppend(xs[1..], ys);
    }
  }

  lemma FrameAlone(x: Xfer)
    ensures Frames([x]) == Frame(x)
  {
  }

  /** A frame always starts with a write header. */
  lemma FramesHeader(xs: seq<Xfer>)
    requires xs != []
    ensures |Frames(xs)| >= 6
    ensures exists n, dev: byte {:trigger Cr2(n, false, dev)} ::
              1 <= n <= 2 && Pulled(Frames(xs)) == Cr2(n, false, dev) && IsHeader(Cr2(n, false, dev), Plan(xs)[0])
  {
    hide Assembled, Queued, Sadd, ReadBit, NBytes, Cr2, Pulled, StartBit, StopBit;
    PlanStream(xs);
    assert |Frame(xs[0])| >= 6;
    HeaderIsHeader(Plan(xs)[0]);
    HeaderFirst(Plan(xs));
    assert Pulled(Frames(xs)) == Cr2(Plan(xs)[0].Units(), false, xs[0].dev);
  }

  lemma HeaderFirst(segs: seq<Seg>)
    requires segs != []
    ensures Pulled(Stream(segs)) == segs[0].Header()
  {
    hide Assembled, Queued, Cr2;
    var w, behind := segs[0].Header(), segs[0].Payload() + Stream(segs[1..]);
    assert Stream(segs) == Queued(w) + behind;
    PulledWord(w, behind);
  }

  /** Without a transfer the hardware can at most send an outstanding STOP, and the handler is not entered. */
  lemma ClosingStep(s: Sys, step: Step, slave: Slave, bus: seq<Event>)
    requires Closing(s.hw, bus) && s.isr.None? && CanStep(s, step)
    ensures var t := Stepped(s, step, slave);
            && t == s.(hw := t.hw) && Closing(t.hw, bus) && t.hw.heard == s.hw.heard && s.hw.phase != Idle
  {
  }

  /** From the pull on, on a free bus: nothing can come between, and the header pulled is launched with the rest of the
      queue behind it. */
  lemma {:induction false} FreeLaunch(s: Sys, c: Caller, run: seq<CallStep>, slave: Slave)
    requires Closing(s.hw, s.hw.bus) && s.hw.phase == Idle && s.isr.None?
    requires !StartBit(Pulled(s.fifo)) && !StopBit(Pulled(s.fifo))
    requires c.sys == (if c.pc == Loading then s else if c.pc == Starting then Loaded(s) else Launch(s))
    requires (c.pc == Loading || c.pc == Starting || c.pc == Returned(true)) && ValidCall(c, run, slave)
    ensures var t := CallRan(c, run, slave);
            && (t.pc == Loading || t.pc == Starting || t.pc == Returned(true))
            && t.sys == (if t.pc == Loading then s else if t.pc == Starting then Loaded(s) else Launch(s))
            && (t.pc == Returned(true) ==> Armed(t.sys.hw) && t.sys.hw.cr2 == Pulled(s.fifo))
    decreases run
  {
    hide Pulled, StartBit, StopBit;
    if run != [] {
      if run[0].Engine? {
        ClosingStep(c.sys, run[0].step, slave, s.hw.bus);
      }
      FreeLaunch(s, Called(c, run[0], slave), run[1..], slave);
    }
  }

  /** Where a call entered with the frames of xs pending stands. */
  ghost predicate QuietStage(c: Caller, s: Sys, xs: seq<Xfer>) {
    && Closing(c.sys.hw, Shown(s.hw)) && c.sys.isr.None? && c.sys.mem == s.mem && c.sys.hw.heard == s.hw.heard
    && Room(c.sys.fifo, c.x, c.pc)
    && (match c.pc
        case First => c.sys.fifo == Frames(xs)
        case Second => c.x.ReadReg? && c.sys.fifo == Frames(xs) + FirstPart(c.x)
        case Polling(_) => c.sys.fifo == Frames(xs + [c.x])
        case Loading => c.sys.fifo == Frames(xs + [c.x]) && c.sys.hw.phase == Idle
        case Returned(ok) => !ok && c.sys.fifo == Frames(xs + [c.x])
        case Starting => false)
  }

  lemma QuietThread(c: Caller, s: Sys, xs: seq<Xfer>)
    requires QuietStage(c, s, xs) && (c.pc.First? || c.pc.Second? || c.pc.Polling?)
    ensures QuietStage(ThreadStep(c), s, xs)
  {
    hide PushedFirst, PushedSecond, FirstPart, SecondPart, Frames, Frame;
    FramesAppend(xs, [c.x]);
    FrameAlone(c.x);
    FrameParts(c.x);
    match c.pc
    case First =>
      FirstFits(c.sys.fifo, c.x);
      if c.x.WriteReg? {
        assert SecondPart(c.x) == [] by { WriteHasOnePart(c.x); }
      }
    case Second =>
      SecondFits(c.sys.fifo, c.x);
      assert Frames(xs) + FirstPart(c.x) + SecondPart(c.x) == Frames(xs) + (FirstPart(c.x) + SecondPart(c.x));
    case Polling(_) =>
  }

  lemma WriteHasOnePart(x: Xfer)
    requires x.WriteReg?
    ensures SecondPart(x) == []
  {
  }

  lemma {:induction false} QuietRun(s: Sys, xs: seq<Xfer>, c: Caller, run: seq<CallStep>, slave: Slave)
    requires QuietStage(c, s, xs) && ValidCall(c, run, slave)
    ensures var t := CallRan(c, run, slave);
            && (t.pc == Returned(false) ==> Quiet(t.sys, xs + [c.x]) && Shown(t.sys.hw) == Shown(s.hw))
            && (t.pc == Returned(true) ==> Launched(t.sys, xs + [c.x]) && t.sys.hw.bus == Shown(s.hw))
            && t.sys.mem == s.mem && t.sys.hw.heard == s.hw.heard
            && (t.pc == Loading ==> Quiet(t.sys, xs + [c.x]) && t.sys.hw.phase == Idle)
    decreases run
  {
    hide Frames, Pulled, Room, PushedFirst, PushedSecond, StartBit, StopBit;
    if c.pc == Loading {
      FramesHeader(xs + [c.x]);
      FreeLaunch(c.sys, c, run, slave);
    } else if run != [] {
      var d := Called(c, run[0], slave);
      if run[0].Engine? {
        ClosingStep(c.sys, run[0].step, slave, Shown(s.hw));
      } else {
        QuietThread(c, s, xs);
      }
      QuietRun(s, xs, d, run[1..], slave);
    }
  }

  /** A call entered while no transfer runs, in every interleaving: it gives up on BUSY with its frame queued and
      nothing else changed, or it launches every queued frame, its own last. */
  lemma {:induction false} QuietCall(s: Sys, xs: seq<Xfer>, x: Xfer, run: seq<CallStep>, slave: Slave)
    requires Quiet(s, xs) && Fits(s.fifo, x) && ValidCall(Caller(s, x, First), run, slave)
    ensures var t := CallRan(Caller(s, x, First), run, slave);
            && (t.pc == Returned(false) ==> Quiet(t.sys, xs + [x]) && Shown(t.sys.hw) == Shown(s.hw))
            && (t.pc == Returned(true) ==> Launched(t.sys, xs + [x]) && t.sys.hw.bus == Shown(s.hw))
            && t.sys.mem == s.mem && t.sys.hw.heard == s.hw.heard
            && (t.pc == Loading ==> Quiet(t.sys, xs + [x]) && t.sys.hw.phase == Idle)
  {
    QuietRun(s, xs, Caller(s, x, First), run, slave);
  }

  // Sessions: interrupt-driven and polling calls, each entered when no transfer runs, some of them giving up on BUSY.

  /** What a polling call can be asked for. */
  datatype Act =
    | Single(x: Xfer)
    | WriteMany(dev: byte, reg: byte, values: seq<byte>)
    | ReadMany(dev: byte, reg: byte, n: nat)

  /** The bus format of an act, STOP included (UM10204 section 3.1.10). */
  function Shape(act: Act, slave: Slave, k: nat): seq<Event> {
    match act
    case Single(x) => Format(x, slave, k, true) + [Stop]
    case WriteMany(dev, reg, values) => [Start(dev, false)] + Sent([reg] + values) + [Stop]
    case ReadMany(dev, reg, n) =>
      [Start(dev, false)] + [Tx(reg)] + [Restart(dev, true)] + Received(slave, k, n) + [Stop]
  }

  function HeardIn(act: Act): nat {
    match act
    case Single(x) => Reads(x)
    case WriteMany(_, _, _) => 0
    case ReadMany(_, _, n) => n
  }

  /** A burst read stores into the caller's array, not through a queued pointer. */
  function StoredBy(act: Act, mem: Memory, slave: Slave, k: nat): Memory {
    if act.Single? then Delivered(mem, [act.x], slave, k) else mem
  }

  /** A polling call entered while no transfer runs: carried out, or given up on BUSY with nothing on the bus. */
  ghost predicate Polled(s: Sys, act: Act, done: bool, t: Sys, slave: Slave) {
    && Closing(t.hw, if done then Shown(s.hw) + Shape(act, slave, s.hw.heard) else Shown(s.hw))
    && t.hw.heard == s.hw.heard + (if done then HeardIn(act) else 0)
    && t.mem == (if done then StoredBy(act, s.mem, slave, s.hw.heard) else s.mem)
    && t.fifo == s.fifo && t.isr == s.isr
  }

  /** An interrupt-driven call, its run until it returns and the engine steps that follow; or a polling call. */
  datatype Turn =
    | ByInterrupt(x: Xfer, call: seq<CallStep>, after: seq<Step>, done: bool)
    | ByPolling(act: Act, to: Sys, done: bool)

  function AfterCall(s: Sys, turn: Turn, slave: Slave): Sys
    requires turn.ByInterrupt? && ValidCall(Caller(s, turn.x, First), turn.call, slave)
  {
    CallRan(Caller(s, turn.x, First), turn.call, slave).sys
  }

  /** The handler has requested STOP, or the bus is free. */
  predicate Settled(s: Sys) { s.isr.None? && (s.hw.stop || (s.hw.phase == Idle && !s.hw.start)) }

  ghost predicate ValidTurn(s: Sys, turn: Turn, slave: Slave) {
    match turn
    case ByInterrupt(x, call, after, done) =>
      && Fits(s.fifo, x)
      && ValidCall(Caller(s, x, First), call, slave)
      && CallRan(Caller(s, x, First), call, slave).pc == Returned(done)
      && ValidRun(AfterCall(s, turn, slave), after, slave)
      && Settled(Ran(AfterCall(s, turn, slave), after, slave))
    case ByPolling(act, to, done) => Polled(s, act, done, to, slave)
  }

  ghost function Turned(s: Sys, turn: Turn, slave: Slave): Sys
    requires ValidTurn(s, turn, slave)
  {
    match turn
    case ByInterrupt(x, call, after, done) => Ran(AfterCall(s, turn, slave), after, slave)
    case ByPolling(act, to, done) => to
  }

  ghost predicate ValidSession(s: Sys, turns: seq<Turn>, slave: Slave)
    decreases turns
  {
    turns != [] ==> ValidTurn(s, turns[0], slave) && ValidSession(Turned(s, turns[0], slave), turns[1..], slave)
  }

  ghost function SessionEnd(s: Sys, turns: seq<Turn>, slave: Slave): Sys
    requires ValidSession(s, turns, slave)
    decreases turns
  {
    if turns == [] then s else SessionEnd(Turned(s, turns[0], slave), turns[1..], slave)
  }

  /** The calls that have given up and whose frames are still queued; the bus since the start; memory; bytes heard. */
  datatype Ledger = Ledger(pending: seq<Xfer>, bus: seq<Event>, mem: Memory, heard: nat)

  /** A call that launches carries out the pending transactions and its own, joined by repeated STARTs. */
  function Entered(l: Ledger, turn: Turn, slave: Slave): Ledger {
    match turn
    case ByInterrupt(x, _, _, done) =>
      var xs := l.pending + [x];
      if !done then l.(pending := xs)
      else
        Ledger([], l.bus + Formats(xs, slave, l.heard, true) + [Stop], Delivered(l.mem, xs, slave, l.heard),
               l.heard + AllReads(xs))
    case ByPolling(act, _, done) =>
      if !done then l
      else
        l.(bus := l.bus + Shape(act, slave, l.heard), mem := StoredBy(act, l.mem, slave, l.heard),
           heard := l.heard + HeardIn(act))
  }

  function Booked(l: Ledger, turns: seq<Turn>, slave: Slave): Ledger
    decreases turns
  {
    if turns == [] then l else Booked(Entered(l, turns[0], slave), turns[1..], slave)
  }

  ghost predicate Agrees(s: Sys, l: Ledger) {
    Quiet(s, l.pending) && Shown(s.hw) == l.bus && s.mem == l.mem && s.hw.heard == l.heard
  }

  /** A run that has settled after a launch has reached its goal. */
  lemma {:induction false} SettledRun(s: Sys, xs: seq<Xfer>, run: seq<Step>, slave: Slave)
    requires Launched(s, xs) && ValidRun(s, run, slave) && Settled(Ran(s, run, slave))
    ensures Ending(Ran(s, run, slave), Target(s, xs, slave))
  {
    hide Launched, Formats, Delivered, PlanTarget;
    var segs := Plan(xs);
    LaunchedIsPlan(s, xs, slave);
    hide Plan, LaunchedPlan, Target;
    var goal := PlanTarget(s, segs, slave);
    PlanIsActive(s, segs, slave);
    var p := RunKeeps(s, run, FirstPos(s.hw, segs), slave, goal);
    hide Ran, Ending, Stepped;
    if Active(Ran(s, run, slave), p, slave, goal) {
      ActiveIsUnsettled(Ran(s, run, slave), p, slave, goal);
    }
  }

  lemma ActiveIsUnsettled(s: Sys, p: Pos, slave: Slave, goal: Goal)
    requires Active(s, p, slave, goal)
    ensures !Settled(s) && !Closing(s.hw, Shown(s.hw))
  {
  }

  lemma {:induction false} QuietAfter(s: Sys, xs: seq<Xfer>, run: seq<Step>, slave: Slave)
    requires Quiet(s, xs) && ValidRun(s, run, slave)
    ensures var t := Ran(s, run, slave);
            Quiet(t, xs) && Shown(t.hw) == Shown(s.hw) && t.mem == s.mem && t.hw.heard == s.hw.heard
    decreases run
  {
    if run != [] {
      ClosingStep(s, run[0], slave, Shown(s.hw));
      QuietAfter(Stepped(s, run[0], slave), xs, run[1..], slave);
    }
  }

  lemma {:induction false} InterruptTurn(s: Sys, l: Ledger, turn: Turn, slave: Slave)
    requires Agrees(s, l) && turn.ByInterrupt? && ValidTurn(s, turn, slave)
    ensures Agrees(Turned(s, turn, slave), Entered(l, turn, slave))
  {
    hide Fits, Launched, Formats, Delivered, Frames, Ran, CallRan, ValidCall, ValidRun;
    var xs := l.pending + [turn.x];
    QuietCall(s, l.pending, turn.x, turn.call, slave);
    var m := AfterCall(s, turn, slave);
    if turn.done {
      SettledRun(m, xs, turn.after, slave);
      assert Frames([]) == [] by { NoFrames(); }
    } else {
      QuietAfter(m, xs, turn.after, slave);
    }
  }

  lemma NoFrames()
    ensures Frames([]) == []
  {
  }

  /** Any session of calls entered while no transfer runs, interrupt-driven and polling ones mixed, some giving up on
      BUSY: the bus is the carried-out transactions in order, every read byte is at its pointer, the frames of the calls
      that gave up go out with the next call that launches, and the bus is free or about to be. */
  lemma {:induction false} SessionTheorem(s: Sys, turns: seq<Turn>, l: Ledger, slave: Slave)
    requires Agrees(s, l) && ValidSession(s, turns, slave)
    ensures Agrees(SessionEnd(s, turns, slave), Booked(l, turns, slave))
    decreases turns
  {
    hide Quiet, Entered, ValidTurn, Turned, Polled;
    if turns != [] {
      if turns[0].ByInterrupt? {
        InterruptTurn(s, l, turns[0], slave);
      } else {
        PollingTurn(s, l, turns[0], slave);
      }
      SessionTheorem(Turned(s, turns[0], slave), turns[1..], Entered(l, turns[0], slave), slave);
    }
  }

  lemma PollingTurn(s: Sys, l: Ledger, turn: Turn, slave: Slave)
    requires Agrees(s, l) && turn.ByPolling? && ValidTurn(s, turn, slave)
    ensures Agrees(Turned(s, turn, slave), Entered(l, turn, slave))
  {
    hide Shape, StoredBy;
  }

  /** One transaction run to its end from idle: the interrupt-driven call and its polling twin put the same trace on the
      bus, hear the same bytes and leave the same memory. */
  lemma {:induction false} TwinsAgree(s: Sys, x: Xfer, call: seq<CallStep>, after: seq<Step>, to: Sys, slave: Slave)
    requires Quiet(s, []) && ValidTurn(s, ByInterrupt(x, call, after, true), slave)
             && Polled(s, Single(x), true, to, slave)
    ensures var t := Turned(s, ByInterrupt(x, call, after, true), slave);
            && Shown(t.hw) == Shown(to.hw) == Shown(s.hw) + Format(x, slave, s.hw.heard, true) + [Stop]
            && t.hw.heard == to.hw.heard && t.mem == to.mem && t.fifo == to.fifo == []
  {
    var l := Ledger([], Shown(s.hw), s.mem, s.hw.heard);
    InterruptTurn(s, l, ByInterrupt(x, call, after, true), slave);
    PollingTurn(s, l, ByPolling(Single(x), to, true), slave);
    hide Format, Delivered, Ran, CallRan, ValidCall, ValidRun, Fits, Closing;
    NoFrames();
    assert [] + [x] == [x] && [x][1..] == [];
    assert AllReads([x]) == Reads(x) + AllReads([]);
    assert Formats([x], slave, s.hw.heard, true) == Format(x, slave, s.hw.heard, true);
    assert Shown(s.hw) + (Format(x, slave, s.hw.heard, true) + [Stop])
        == Shown(s.hw) + Format(x, slave, s.hw.heard, true) + [Stop];
  }
}
