/** quasar_i2c.c as code: the interrupt handler, the interrupt-driven calls and the polling calls of one instance.

    The controller may act before every register access, and on an instance with interrupts the handler may run between
    any two statements of the thread outside critical sections; Advance and Interfere stand for that. `log` records the
    reads of ISR in waits, so that contracts can say why a call gave up. */
module I2cDriver {
  import opened Words
  import Fifo
  import opened Ring
  import opened I2cBus
  import opened I2cEngine
  import opened I2cCalls

  datatype Err = Ok | BusyTimeout | TxisTimeout | TcTimeout | RxneTimeout

  datatype Flag = BUSY | TXIS | RXNE | TC

  predicate Raised(h: Hw, flag: Flag) {
    match flag
    case BUSY => h.Busy()
    case TXIS => h.txis
    case RXNE => h.rxne
    case TC => h.tc
  }

  /** The retry counts are 16 bits wide; so is the sum handed to the wait for a received byte. */
  type uint16 = x: int | 0 <= x < 0x1_0000

  function RxneRetries(retries: uint16): uint16 { (retries + 500) % 0x1_0000 }

  /** The sum is the one intended exactly up to 65035 retries. */
  lemma RetriesWrapIff(retries: uint16)
    ensures RxneRetries(retries) == retries + 500 <==> retries <= 65035
  {
  }

  function AtLeastOne(n: nat): nat { if n == 0 then 1 else n }

  /** One read of ISR in a wait: the flag and the value waited for, and the value read. */
  datatype Poll = Poll(flag: Flag, expected: bool, seen: bool)

  /** The log from index `from` on ends with a wait that used up its timeout: only the last read may have matched. */
  ghost predicate TimedOut(log: seq<Poll>, from: nat, flag: Flag, timeout: uint16, expected: bool) {
    && from + AtLeastOne(timeout) <= |log|
    && (forall i :: |log| - AtLeastOne(timeout) <= i < |log| ==> log[i].flag == flag && log[i].expected == expected)
    && (forall i :: |log| - AtLeastOne(timeout) <= i < |log| - 1 ==> log[i].seen != expected)
  }

  /** n polls have been logged, none of them matching. */
  ghost predicate Missed(before: seq<Poll>, log: seq<Poll>, flag: Flag, expected: bool, n: nat) {
    && before <= log && |log| == |before| + n
    && forall i :: |before| <= i < |log| ==> log[i] == Poll(flag, expected, !expected)
  }

  /** What a wait logs: n polls that do not match, then one that reads `last`. It fails exactly when that is read number
      `timeout` (or the first, for a timeout of 0), matching or not; otherwise the last poll matches. */
  ghost predicate WaitLog(before: seq<Poll>, log: seq<Poll>, flag: Flag, timeout: uint16, expected: bool,
                          n: nat, last: bool, failed: bool) {
    && |before| < |log| <= |before| + AtLeastOne(timeout)
    && Missed(before, log[..|log| - 1], flag, expected, n) && log[|log| - 1] == Poll(flag, expected, last)
    && (failed <==> |log| == |before| + AtLeastOne(timeout))
    && (failed ==> TimedOut(log, |before|, flag, timeout, expected))
    && (!failed ==> n + 1 < timeout && last == expected)
  }

  /** A timeout is reported only after a wait for that very flag has timed out. */
  ghost predicate Explained(err: Err, log: seq<Poll>, from: nat, retries: uint16) {
    match err
    case Ok => true
    case BusyTimeout => TimedOut(log, from, BUSY, retries, false)
    case TxisTimeout => TimedOut(log, from, TXIS, retries, true)
    case TcTimeout => TimedOut(log, from, TC, retries, true)
    case RxneTimeout => TimedOut(log, from, RXNE, RxneRetries(retries), true)
  }

  // Ghost runs of the methods.

  /** Events that the controller can carry out one after the other. */
  ghost predicate Possible(h: Hw, events: seq<HwEvent>, slave: Slave)
    decreases events
  {
    events == [] || (Enabled(h, events[0]) && Possible(Apply(h, events[0], slave), events[1..], slave))
  }

  lemma {:induction false} PossibleAppend(h: Hw, events: seq<HwEvent>, e: HwEvent, slave: Slave)
    requires Possible(h, events, slave) && Enabled(Advanced(h, events, slave), e)
    ensures Possible(h, events + [e], slave)
    ensures Advanced(h, events + [e], slave) == Apply(Advanced(h, events, slave), e, slave)
    decreases events
  {
    if events == [] {
      assert [] + [e] == [e] && [e][1..] == [];
    } else {
      assert (events + [e])[1..] == events[1..] + [e];
      PossibleAppend(Apply(h, events[0], slave), events[1..], e, slave);
    }
  }

  function HardwareSteps(events: seq<HwEvent>): seq<Step> {
    if events == [] then [] else [Hardware(events[0])] + HardwareSteps(events[1..])
  }

  lemma {:induction false} HardwareRun(s: Sys, events: seq<HwEvent>, slave: Slave)
    requires Possible(s.hw, events, slave)
    ensures ValidRun(s, HardwareSteps(events), slave)
    ensures Ran(s, HardwareSteps(events), slave) == s.(hw := Advanced(s.hw, events, slave))
    decreases events
  {
    if events != [] {
      var h := Apply(s.hw, events[0], slave);
      assert HardwareSteps(events)[1..] == HardwareSteps(events[1..]);
      HardwareRun(s.(hw := h), events[1..], slave);
    }
  }

  lemma {:induction false} RunConcat(s: Sys, a: seq<Step>, b: seq<Step>, slave: Slave)
    requires ValidRun(s, a, slave) && ValidRun(Ran(s, a, slave), b, slave)
    ensures ValidRun(s, a + b, slave) && Ran(s, a + b, slave) == Ran(Ran(s, a, slave), b, slave)
    decreases a
  {
    if a == [] {
      assert a + b == b;
    } else {
      assert (a + b)[1..] == a[1..] + b;
      RunConcat(Stepped(s, a[0], slave), a[1..], b, slave);
    }
  }

  lemma OneStep(s: Sys, step: Step, slave: Slave)
    requires CanStep(s, step)
    ensures ValidRun(s, [step], slave) && Ran(s, [step], slave) == Stepped(s, step, slave)
  {
    assert [step][1..] == [];
  }

  /** A handler entry: the read of ISR, what the controller does meanwhile, and the rest of the handler. */
  lemma {:induction false} EntryRun(s: Sys, events: seq<HwEvent>, slave: Slave)
    requires s.isr.None? && s.hw.Flagged() && Possible(s.hw, events, slave)
    ensures var run := [Enter] + HardwareSteps(events) + [Body];
            && ValidRun(s, run, slave)
            && Ran(s, run, slave)
               == Handled(s.(hw := Advanced(s.hw, events, slave)), Status(s.hw.txis, s.hw.rxne, s.hw.tc))
  {
    hide Handled, Advanced;
    var latched := s.(isr := Some(Status(s.hw.txis, s.hw.rxne, s.hw.tc)));
    OneStep(s, Enter, slave);
    HardwareRun(latched, events, slave);
    RunConcat(s, [Enter], HardwareSteps(events), slave);
    var m := Ran(s, [Enter] + HardwareSteps(events), slave);
    OneStep(m, Body, slave);
    RunConcat(s, [Enter] + HardwareSteps(events), [Body], slave);
    HandledIgnoresLatch(s.(hw := Advanced(s.hw, events, slave)), latched.isr);
  }

  lemma HandledIgnoresLatch(s: Sys, isr: Option<Status>)
    requires isr.Some? && s.isr.None?
    ensures Handled(s.(isr := isr), isr.value).(isr := None) == Handled(s, isr.value)
  {
    hide Pulled;
  }

  /** Reads of ISR, all but the matching one, with engine steps in between. */
  ghost predicate ValidWait(s: Sys, w: seq<CallStep>, slave: Slave, flag: Flag, expected: bool)
    decreases w
  {
    w == [] || (match w[0]
                case Engine(e) => CanStep(s, e) && ValidWait(Stepped(s, e, slave), w[1..], slave, flag, expected)
                case Thread =>
                  s.isr.None? && Raised(s.hw, flag) != expected && ValidWait(s, w[1..], slave, flag, expected))
  }

  ghost function Waited(s: Sys, w: seq<CallStep>, slave: Slave, flag: Flag, expected: bool): Sys
    requires ValidWait(s, w, slave, flag, expected)
    decreases w
  {
    if w == [] then s
    else Waited(if w[0].Engine? then Stepped(s, w[0].step, slave) else s, w[1..], slave, flag, expected)
  }

  function ReadsIn(w: seq<CallStep>): nat {
    if w == [] then 0 else (if w[0].Thread? then 1 else 0) + ReadsIn(w[1..])
  }

  function EngineSteps(run: seq<Step>): seq<CallStep> {
    if run == [] then [] else [Engine(run[0])] + EngineSteps(run[1..])
  }

  lemma {:induction false} WaitConcat(s: Sys, a: seq<CallStep>, b: seq<CallStep>, slave: Slave, flag: Flag,
                                      expected: bool)
    requires ValidWait(s, a, slave, flag, expected)
    requires ValidWait(Waited(s, a, slave, flag, expected), b, slave, flag, expected)
    ensures ValidWait(s, a + b, slave, flag, expected) && ReadsIn(a + b) == ReadsIn(a) + ReadsIn(b)
    ensures Waited(s, a + b, slave, flag, expected)
         == Waited(Waited(s, a, slave, flag, expected), b, slave, flag, expected)
    decreases a
  {
    hide Stepped, CanStep;
    if a == [] {
      assert a + b == b;
    } else {
      assert (a + b)[1..] == a[1..] + b;
      WaitConcat(if a[0].Engine? then Stepped(s, a[0].step, slave) else s, a[1..], b, slave, flag, expected);
    }
  }

  lemma {:induction false} EngineIsWait(s: Sys, run: seq<Step>, slave: Slave, flag: Flag, expected: bool)
    requires ValidRun(s, run, slave)
    ensures ValidWait(s, EngineSteps(run), slave, flag, expected) && ReadsIn(EngineSteps(run)) == 0
    ensures Waited(s, EngineSteps(run), slave, flag, expected) == Ran(s, run, slave)
    decreases run
  {
    hide Stepped, CanStep;
    if run != [] {
      assert EngineSteps(run)[1..] == EngineSteps(run[1..]);
      EngineIsWait(Stepped(s, run[0], slave), run[1..], slave, flag, expected);
    }
  }

  /** Engine steps between two statements of a call. */
  lemma {:induction false} EngineIsCall(c: Caller, run: seq<Step>, slave: Slave)
    requires ValidRun(c.sys, run, slave) && c.pc != First && !c.pc.Returned?
    ensures ValidCall(c, EngineSteps(run), slave)
    ensures CallRan(c, EngineSteps(run), slave) == c.(sys := Ran(c.sys, run, slave))
    decreases run
  {
    hide Stepped, CanStep;
    if run != [] {
      assert EngineSteps(run)[1..] == EngineSteps(run[1..]);
      EngineIsCall(c.(sys := Stepped(c.sys, run[0], slave)), run[1..], slave);
    }
  }

  /** The wait for BUSY of a call. */
  lemma {:induction false} WaitIsPolling(c: Caller, w: seq<CallStep>, slave: Slave)
    requires c.pc.Polling? && ValidWait(c.sys, w, slave, BUSY, false) && c.pc.polls + ReadsIn(w) < BUSY_READS
    ensures ValidCall(c, w, slave)
    ensures CallRan(c, w, slave)
            == Caller(Waited(c.sys, w, slave, BUSY, false), c.x, Pc.Polling(c.pc.polls + ReadsIn(w)))
    decreases w
  {
    hide Stepped, CanStep;
    if w != [] {
      WaitIsPolling(Called(c, w[0], slave), w[1..], slave);
    }
  }

  lemma OneThreadStep(c: Caller, slave: Slave)
    requires CanCall(c, Thread)
    ensures ValidCall(c, [Thread], slave) && CallRan(c, [Thread], slave) == ThreadStep(c)
  {
    hide ThreadStep;
    assert [Thread][1..] == [];
  }

  // A bus that is held.

  /** A transfer is on the bus and no STOP is requested. */
  predicate Held(h: Hw) { h.phase != Idle && !h.stop }

  /** Whatever the controller does by itself, it does not free the bus. */
  lemma {:induction false} HeldStays(h: Hw, events: seq<HwEvent>, slave: Slave)
    requires Held(h)
    ensures Held(Advanced(h, events, slave))
    decreases events
  {
    if events != [] {
      HeldStays(if Enabled(h, events[0]) then Apply(h, events[0], slave) else h, events[1..], slave);
    }
  }

  /** From a pending START the controller can only send it. */
  lemma {:induction false} ArmedStays(h: Hw, events: seq<HwEvent>, slave: Slave)
    requires Armed(h)
    ensures Advanced(h, events, slave) == h || Held(Advanced(h, events, slave))
    decreases events
  {
    if events != [] {
      if Enabled(h, events[0]) {
        HeldStays(Apply(h, events[0], slave), events[1..], slave);
      } else {
        ArmedStays(h, events[1..], slave);
      }
    }
  }

  /** No transfer is on the bus: none is running, or one is requested and its START not out. */
  ghost predicate Enterable(h: Hw) { Closing(h, Shown(h)) || Armed(h) }

  /** A bus on which START may be requested, or is. */
  predicate Clear(h: Hw, bus: seq<Event>) {
    h.phase == Idle && !h.stop && h.left == 0 && h.txdr.None? && !h.Flagged() && h.bus == bus
  }

  /** Where a polling call that has timed out has left the transfer. */
  datatype Place = Place(g: Segment, loaded: seq<byte>, taken: nat)

  /** A call that timed out inside the transfer has not requested STOP and the bus has seen none since `bus`; the
      transfer holds the bus, except that after the first wait its START may still be pending. */
  ghost predicate CutShort(h: Hw, at: Place, slave: Slave, bus: seq<Event>, first: bool) {
    && InSegment(h, at.g, slave, at.loaded, at.taken)
    && bus <= h.bus && Stop !in h.bus[|bus|..]
    && (Held(h) || (first && Armed(h) && h.bus == bus))
  }

  lemma SegmentCutShort(h: Hw, at: Place, slave: Slave, bus: seq<Event>, first: bool)
    requires InSegment(h, at.g, slave, at.loaded, at.taken) && bus <= at.g.before && Stop !in at.g.before[|bus|..]
    requires at.g.open.Start? ==> at.g.before == bus
    requires at.loaded == [] && at.taken == 0 && at.g.open.Start? ==> first
    ensures CutShort(h, at, slave, bus, first)
  {
    var tail := InSegmentTail(h, at, slave);
    hide InSegment;
    assert h.bus[|bus|..] == at.g.before[|bus|..] + tail;
  }

  /** A segment adds to the bus its opening condition and bytes, no STOP; and it holds the bus once its START is out. */
  lemma InSegmentTail(h: Hw, at: Place, slave: Slave) returns (tail: seq<Event>)
    requires InSegment(h, at.g, slave, at.loaded, at.taken)
    ensures h.bus == at.g.before + tail && Stop !in tail
    ensures Held(h) || (Armed(h) && tail == [] && at.loaded == [] && at.taken == 0 && at.g.open.Start?)
  {
    tail := h.bus[|at.g.before|..];
  }

  class I2c {
    const fifo: Fifo.Fifo
    const slave: Slave
    /** The instance was initialised with an interrupt priority. */
    const irq: bool
    var hw: Hw
    var mem: Memory
    var valTmp: word
    ghost var log: seq<Poll>
    /** The controller just before each SET_BIT of START by a polling call. */
    ghost var starts: seq<Hw>

    /** The state as the engine sees it, outside the handler. */
    ghost function State(): Sys
      requires fifo.Valid()
      reads this, fifo, fifo.data
    {
      Sys(fifo.Contents(), hw, mem, None)
    }

    /** The instance after initialisation: an empty queue and a free bus. */
    constructor (slave: Slave, irq: bool)
      ensures fifo.Valid() && fresh(fifo) && fresh(fifo.data) && this.slave == slave && this.irq == irq
      ensures Quiet(State(), []) && hw.phase == Idle && hw.bus == []
    {
      this.slave, this.irq := slave, irq;
      fifo := new Fifo.Fifo();
      hw := Hw(0, false, false, Idle, 0, None, 0, false, false, false, 0, []);
      mem := map[];
      valTmp := 0;
      log, starts := [], [];
    }

    /** The controller acts, any number of times. */
    method Advance() returns (ghost events: seq<HwEvent>)
      modifies this`hw
      ensures Possible(old(hw), events, slave) && hw == Advanced(old(hw), events, slave)
    {
      events := [];
      var n: nat := *;
      while n > 0
        invariant Possible(old(hw), events, slave) && hw == Advanced(old(hw), events, slave)
      {
        var e: HwEvent := *;
        if Enabled(hw, e) {
          PossibleAppend(old(hw), events, e, slave);
          hw := Apply(hw, e, slave);
          events := events + [e];
        }
        n := n - 1;
      }
    }

    /** RXNE part of the handler. */
    method StoreReceived()
      requires fifo.Valid()
      modifies this, fifo
      ensures fifo.Valid() && State() == StoreByte(old(State())) && log == old(log)
    {
      var receivedPtr, _ := fifo.PullBytes(4);
      PulledFits(old(fifo.Contents()));
      valTmp := receivedPtr;
      mem := mem[valTmp := hw.rxdr];
      hw := ReadRxdr(hw);
    }

    /** TC part of the handler. */
    method StopOrRestart()
      requires fifo.Valid()
      modifies this, fifo
      ensures fifo.Valid() && State() == StopOrChain(old(State())) && log == old(log)
    {
      var count := fifo.GetCount();
      if count == 0 {
        hw := SetStop(hw);
      } else {
        var w, _ := fifo.PullBytes(4);
        PulledFits(old(fifo.Contents()));
        hw := WriteCr2(hw, w);
        hw := SetStart(hw);
      }
    }

    /** The switch of the handler. */
    method Serve(status: Status)
      requires fifo.Valid()
      modifies this, fifo
      ensures fifo.Valid() && State() == Handled(old(State()), status) && log == old(log)
    {
      match status {
        case Status(false, true, true) =>
          StoreReceived();
          StopOrRestart();
        case Status(false, false, true) =>
          StopOrRestart();
        case Status(true, false, false) =>
          var _, pulledByte := fifo.Pull(0);
          hw := WriteTxdr(hw, pulledByte);
        case Status(false, true, false) =>
          StoreReceived();
        case _ =>
      }
    }

    /** i2c_irq_handler_routine: one entry is a run of the engine that the engine theorem is about. */
    method HandlerRoutine() returns (ghost run: seq<Step>)
      requires fifo.Valid() && hw.Flagged()
      modifies this, fifo
      ensures fifo.Valid() && log == old(log)
      ensures ValidRun(old(State()), run, slave) && State() == Ran(old(State()), run, slave)
    {
      hide Handled;
      var status := Status(hw.txis, hw.rxne, hw.tc);
      ghost var events := Advance();
      EntryRun(old(State()), events, slave);
      run := [Enter] + HardwareSteps(events) + [Body];
      Serve(status);
    }

    /** What may happen between two statements of the thread. */
    method Interfere() returns (ghost run: seq<Step>, ghost events: seq<HwEvent>)
      requires fifo.Valid()
      modifies this`hw, if irq then {this, fifo} else {}
      ensures fifo.Valid() && log == old(log)
      ensures ValidRun(old(State()), run, slave) && State() == Ran(old(State()), run, slave)
      ensures !irq ==> hw == Advanced(old(hw), events, slave)
    {
      if !irq {
        events := Advance();
        run := HardwareSteps(events);
        HardwareRun(old(State()), events, slave);
        return;
      }
      run, events := [], [];
      var n: nat := *;
      while n > 0
        invariant fifo.Valid() && log == old(log)
        invariant ValidRun(old(State()), run, slave) && State() == Ran(old(State()), run, slave)
      {
        ghost var more: seq<Step>;
        ghost var now := State();
        var enter: bool := *;
        if enter && hw.Flagged() {
          more := HandlerRoutine();
        } else {
          ghost var moved := Advance();
          HardwareRun(now, moved, slave);
          more := HardwareSteps(moved);
        }
        RunConcat(old(State()), run, more, slave);
        run := run + more;
        n := n - 1;
      }
    }

    /** Between two polls of a wait. */
    method InterfereInWait(ghost s: Sys, ghost w: seq<CallStep>, ghost h: Hw, ghost events: seq<HwEvent>,
                           flag: Flag, expected: bool) returns (ghost longer: seq<CallStep>, ghost later: seq<HwEvent>)
      requires fifo.Valid() && ValidWait(s, w, slave, flag, expected) && State() == Waited(s, w, slave, flag, expected)
      requires !irq ==> hw == Advanced(h, events, slave)
      modifies this`hw, if irq then {this, fifo} else {}
      ensures fifo.Valid() && log == old(log)
      ensures ValidWait(s, longer, slave, flag, expected) && State() == Waited(s, longer, slave, flag, expected)
      ensures ReadsIn(longer) == ReadsIn(w)
      ensures !irq ==> hw == Advanced(h, later, slave)
    {
      hide ValidWait, Waited, ReadsIn, Ran, ValidRun, EngineSteps, Advanced;
      ghost var now := State();
      ghost var run, more := Interfere();
      if !irq {
        AdvancedConcat(h, events, more, slave);
      }
      EngineIsWait(now, run, slave, flag, expected);
      WaitConcat(s, w, EngineSteps(run), slave, flag, expected);
      longer, later := w + EngineSteps(run), events + more;
    }

    /** i2c_wait_for_flag: the wait succeeds exactly when one of the first timeout - 1 polls sees the expected value,
        and stops there. `w` is what has happened up to the last poll. */
    method WaitForFlag(flag: Flag, timeout: uint16, expected: bool)
      returns (failed: bool, ghost events: seq<HwEvent>, ghost w: seq<CallStep>)
      requires fifo.Valid()
      modifies this`hw, this`log, if irq then {this, fifo} else {}
      ensures fifo.Valid()
      ensures !irq ==> hw == Advanced(old(hw), events, slave)
      ensures ValidWait(old(State()), w, slave, flag, expected)
      ensures State() == Waited(old(State()), w, slave, flag, expected)
      ensures WaitLog(old(log), log, flag, timeout, expected, ReadsIn(w), Raised(hw, flag), failed)
    {
      hide ValidWait, Waited, ReadsIn, Advanced, Raised, WaitLog, Missed, TimedOut, AtLeastOne, Window;
      var counter: uint16 := 0;
      events, w := [], [];
      NothingYet(State(), slave, flag, expected);
      NoPolls(log, flag, expected);
      while true
        invariant fifo.Valid() && (counter > 0 ==> counter < timeout)
        invariant !irq ==> hw == Advanced(old(hw), events, slave)
        invariant ValidWait(old(State()), w, slave, flag, expected) && ReadsIn(w) == counter
        invariant State() == Waited(old(State()), w, slave, flag, expected)
        invariant Missed(old(log), log, flag, expected, counter)
        decreases 0x1_0000 - counter
      {
        w, events := InterfereInWait(old(State()), w, old(hw), events, flag, expected);
        var status := Raised(hw, flag);
        ghost var sofar := log;
        log := log + [Poll(flag, expected, status)];
        counter := counter + 1;
        if counter >= timeout {
          WaitFails(old(log), sofar, flag, timeout, expected, counter, status);
          return true, events, w;
        }
        if !(status != expected && counter <= timeout) {
          WaitSucceeds(old(log), sofar, flag, timeout, expected, counter);
          return false, events, w;
        }
        OneMore(old(log), sofar, flag, expected, counter);
        OneMismatch(State(), slave, flag, expected);
        WaitConcat(old(State()), w, [Thread], slave, flag, expected);
        w := w + [Thread];
      }
    }

    // The interrupt-driven calls.

    /** memcpy of a word into an array, and the unchecked push of the array. */
    method QueueWord(w: word)
      requires fifo.Valid()
      modifies fifo, fifo.data
      ensures fifo.Valid() && fifo.Contents() == TryPushAll(old(fifo.Contents()), Queued(w))
    {
      var arrayToPush := Image(w);
      WholeImage(w);
      var _ := fifo.PushBytes(arrayToPush, 4);
    }

    method QueueByte(b: byte)
      requires fifo.Valid()
      modifies fifo, fifo.data
      ensures fifo.Valid() && fifo.Contents() == TryPush(old(fifo.Contents()), b)
    {
      var _ := fifo.Push(b);
    }

    /** The critical section of quasar_i2c_write. */
    method QueueWrite(dev: byte, reg: byte, value: byte)
      requires fifo.Valid()
      modifies fifo, fifo.data
      ensures fifo.Valid() && fifo.Contents() == PushedFirst(old(fifo.Contents()), WriteReg(dev, reg, value))
    {
      hide Queued, Cr2, TryPush, TryPushAll;
      QueueWord(Cr2(2, false, dev));
      QueueByte(reg);
      QueueByte(value);
    }

    /** The first critical section of quasar_i2c_read. */
    method QueueRegister(dev: byte, reg: byte, ptr: word)
      requires fifo.Valid()
      modifies fifo, fifo.data
      ensures fifo.Valid() && fifo.Contents() == PushedFirst(old(fifo.Contents()), ReadReg(dev, reg, ptr))
    {
      hide Queued, Cr2, TryPush, TryPushAll;
      QueueWord(Cr2(1, false, dev));
      QueueByte(reg);
    }

    /** The second critical section of quasar_i2c_read. */
    method QueueRead(dev: byte, reg: byte, ptr: word)
      requires fifo.Valid()
      modifies fifo, fifo.data
      ensures fifo.Valid() && fifo.Contents() == PushedSecond(old(fifo.Contents()), ReadReg(dev, reg, ptr))
    {
      hide Queued, Cr2, TryPush, TryPushAll;
      QueueWord(Cr2(1, true, dev));
      QueueWord(ptr);
    }

    /** The critical section that pulls the header into CR2. */
    method LoadHeader()
      requires fifo.Valid()
      modifies this`hw, fifo
      ensures fifo.Valid() && State() == Loaded(old(State()))
    {
      var w, _ := fifo.PullBytes(4);
      PulledFits(old(fifo.Contents()));
      hw := WriteCr2(hw, w);
    }

    /** The common end of quasar_i2c_write and quasar_i2c_read. */
    method LaunchQueued(ghost c: Caller) returns (err: Err, ghost run: seq<CallStep>)
      requires fifo.Valid() && c.sys == State() && c.pc == Pc.Polling(0)
      modifies this, fifo
      ensures fifo.Valid() && (err == Ok || err == BusyTimeout)
      ensures |old(log)| <= |log| && Explained(err, log, |old(log)|, BUSY_READS)
      ensures ValidCall(c, run, slave) && CallRan(c, run, slave) == Caller(State(), c.x, Returned(err == Ok))
      ensures !irq && Held(old(hw)) ==> err == BusyTimeout && Held(hw)
    {
      hide ValidWait, Waited, ReadsIn, Ran, ValidRun, EngineSteps, CallRan, ValidCall;
      hide Loaded, Handled, Stepped, TimedOut;
      var failed;
      ghost var events, w;
      failed, events, w := WaitForFlag(BUSY, BUSY_READS, false);
      if !irq && Held(old(hw)) {
        HeldStays(old(hw), events, slave);
      }
      WaitIsPolling(c, w, slave);
      ghost var d := CallRan(c, w, slave);
      OneThreadStep(d, slave);
      CallConcat(c, w, [Thread], slave);
      run := w + [Thread];
      if failed {
        return BusyTimeout, run;
      }
      run := Between(c, run, Loading);
      d := CallRan(c, run, slave);
      LoadHeader();
      OneThreadStep(d, slave);
      CallConcat(c, run, [Thread], slave);
      run := Between(c, run + [Thread], Starting);
      d := CallRan(c, run, slave);
      hw := SetStart(hw);
      OneThreadStep(d, slave);
      CallConcat(c, run, [Thread], slave);
      run := run + [Thread];
      err := Ok;
    }

    /** Engine steps at a statement of a call. */
    method Between(ghost c: Caller, ghost run: seq<CallStep>, ghost pc: Pc) returns (ghost longer: seq<CallStep>)
      requires fifo.Valid() && ValidCall(c, run, slave) && CallRan(c, run, slave) == Caller(State(), c.x, pc)
      requires pc != First && !pc.Returned?
      modifies this, fifo
      ensures fifo.Valid() && log == old(log)
      ensures ValidCall(c, longer, slave) && CallRan(c, longer, slave) == Caller(State(), c.x, pc)
      ensures !irq && Held(old(hw)) ==> Held(hw)
    {
      hide ValidRun, Ran, CallRan, ValidCall, EngineSteps;
      ghost var steps, events := Interfere();
      if !irq && Held(old(hw)) {
        HeldStays(old(hw), events, slave);
      }
      EngineIsCall(CallRan(c, run, slave), steps, slave);
      CallConcat(c, run, EngineSteps(steps), slave);
      longer := run + EngineSteps(steps);
    }

    /** quasar_i2c_write, in whatever state it is entered: a run of the call whose interleavings I2cCalls and I2cOverlap
        are about. */
    method Write(dev: byte, reg: byte, value: byte) returns (err: Err, ghost run: seq<CallStep>)
      requires fifo.Valid()
      modifies this, fifo, fifo.data
      ensures fifo.Valid() && (err == Ok || err == BusyTimeout) && Explained(err, log, |old(log)|, BUSY_READS)
      ensures var c := Caller(old(State()), WriteReg(dev, reg, value), First);
              ValidCall(c, run, slave) && CallRan(c, run, slave) == Caller(State(), c.x, Returned(err == Ok))
      ensures !irq && Held(old(hw)) ==> err == BusyTimeout && Held(hw)
    {
      hide PushedFirst, CallRan, ValidCall, TimedOut;
      ghost var c := Caller(State(), WriteReg(dev, reg, value), First);
      QueueWrite(dev, reg, value);
      OneThreadStep(c, slave);
      ghost var rest;
      err, rest := LaunchQueued(ThreadStep(c));
      CallConcat(c, [Thread], rest, slave);
      run := [Thread] + rest;
    }

    /** quasar_i2c_read, in whatever state it is entered; `ptr` is where the byte will be stored. */
    method Read(dev: byte, reg: byte, ptr: word) returns (err: Err, ghost run: seq<CallStep>)
      requires fifo.Valid()
      modifies this, fifo, fifo.data
      ensures fifo.Valid() && (err == Ok || err == BusyTimeout) && Explained(err, log, |old(log)|, BUSY_READS)
      ensures var c := Caller(old(State()), ReadReg(dev, reg, ptr), First);
              ValidCall(c, run, slave) && CallRan(c, run, slave) == Caller(State(), c.x, Returned(err == Ok))
      ensures !irq && Held(old(hw)) ==> err == BusyTimeout && Held(hw)
    {
      hide PushedFirst, PushedSecond, CallRan, ValidCall, TimedOut;
      ghost var c := Caller(State(), ReadReg(dev, reg, ptr), First);
      QueueRegister(dev, reg, ptr);
      OneThreadStep(c, slave);
      run := Between(c, [Thread], Second);
      ghost var d := CallRan(c, run, slave);
      QueueRead(dev, reg, ptr);
      OneThreadStep(d, slave);
      CallConcat(c, run, [Thread], slave);
      run := run + [Thread];
      ghost var rest;
      err, rest := LaunchQueued(ThreadStep(d));
      CallConcat(c, run, rest, slave);
      run := run + rest;
    }

    // Building blocks of the polling calls. `ok` says that the transfer on the bus is the call's own.

    /** A wait inside segment g. */
    method Await(flag: Flag, timeout: uint16, ghost at: Place, ghost from: nat, ghost ok: bool) returns (failed: bool)
      requires fifo.Valid() && !irq && from <= |log|
      requires ok ==> InSegment(hw, at.g, slave, at.loaded, at.taken)
      modifies this`hw, this`log
      ensures ok ==> InSegment(hw, at.g, slave, at.loaded, at.taken)
      ensures ok && hw.rxne ==> at.g.Reads() && at.taken < at.g.n
      ensures |old(log)| <= |log| <= |old(log)| + AtLeastOne(timeout)
      ensures if failed then TimedOut(log, from, flag, timeout, true) else Raised(hw, flag)
      ensures old(hw.bus) <= hw.bus
    {
      ghost var events, w;
      failed, events, w := WaitForFlag(flag, timeout, true);
      AdvancedGrows(old(hw), events, slave);
      if ok {
        SegmentStays(old(hw), events, at.g, slave, at.loaded, at.taken);
        ReadToTheEnd(hw, at.g, slave, at.loaded, at.taken);
      }
    }

    /** A write to TXDR after TXIS has been seen. */
    method LoadTxdr(b: byte, ghost at: Place, ghost ok: bool) returns (ghost next: Place)
      requires ok ==> InSegment(hw, at.g, slave, at.loaded, 0) && hw.txis
      modifies this`hw
      ensures next == at.(loaded := at.loaded + [b]) && old(hw.bus) <= hw.bus
      ensures ok ==> InSegment(hw, at.g, slave, next.loaded, 0) && |at.loaded| < at.g.n
    {
      ghost var events := Advance();
      AdvancedGrows(old(hw), events, slave);
      if ok {
        SegmentStays(old(hw), events, at.g, slave, at.loaded, 0);
        LoadInSegment(hw, at.g, slave, at.loaded, b);
      }
      next := at.(loaded := at.loaded + [b]);
      hw := WriteTxdr(hw, b);
    }

    /** A read of RXDR after RXNE has been seen. */
    method TakeRxdr(ghost at: Place, ghost ok: bool) returns (b: byte, ghost next: Place)
      requires ok ==> at.loaded == [] && InSegment(hw, at.g, slave, [], at.taken) && hw.rxne
      modifies this`hw
      ensures next == at.(taken := at.taken + 1) && old(hw.bus) <= hw.bus
      ensures ok ==>
                InSegment(hw, at.g, slave, [], next.taken) && b == slave(at.g.k + at.taken) && at.taken < at.g.n
    {
      ghost var events := Advance();
      AdvancedGrows(old(hw), events, slave);
      if ok {
        SegmentStays(old(hw), events, at.g, slave, [], at.taken);
        TakeInSegment(hw, at.g, slave, at.taken);
      }
      next := at.(taken := at.taken + 1);
      b := hw.rxdr;
      hw := ReadRxdr(hw);
    }

    /** CR2 := w and START. A START that was pending may go out before, with the old header or with the new one; `ok`
        says that it did not. */
    method Begin(w: word, ghost bus: seq<Event>) returns (ghost at: Place, ghost ok: bool)
      requires !StartBit(w) && !StopBit(w)
      modifies this`hw, this`starts
      ensures at == Place(Segment(bus, Start(Sadd(w), ReadBit(w)), NBytes(w), old(hw.heard)), [], 0)
      ensures |starts| == |old(starts)| + 1 && old(starts) <= starts && starts[|old(starts)|].bus == hw.bus
      ensures Clear(old(hw), bus) ==> (ok <==> starts[|old(starts)|].phase == Idle)
      ensures Clear(old(hw), bus) && ok ==> InSegment(hw, at.g, slave, [], 0)
      ensures Clear(old(hw), bus) && !ok ==> SentEarly(old(hw), starts[|old(starts)|], w)
    {
      at := Place(Segment(bus, Start(Sadd(w), ReadBit(w)), NBytes(w), hw.heard), [], 0);
      ghost var before := Advance();
      if Clear(old(hw), bus) {
        ClearStays(old(hw), before, slave, bus);
      }
      ghost var sent := hw.phase != Idle;
      hw := WriteCr2(hw, w);
      ghost var h := hw;
      ghost var between := Advance();
      AdvancedGrows(h, between, slave);
      if Clear(old(hw), bus) {
        if sent {
          HeldStays(h, between, slave);
        } else {
          ClearStays(h, between, slave, bus);
        }
      }
      ok := hw.phase == Idle;
      starts := starts + [hw];
      hw := SetStart(hw);
    }

    /** CR2 := w and START after TC: a repeated START. */
    method Again(w: word, ghost at: Place, ghost ok: bool) returns (ghost next: Place)
      requires !StartBit(w) && !StopBit(w)
      requires ok ==> InSegment(hw, at.g, slave, at.loaded, 0) && hw.tc && !hw.rxne && !at.g.Reads()
      modifies this`hw, this`starts
      ensures old(starts) <= starts && hw.bus == old(hw.bus)
      ensures var bus := at.g.before + [at.g.open] + Sent(at.loaded);
              next == Place(Segment(bus, Restart(Sadd(w), ReadBit(w)), NBytes(w), at.g.k), [], 0)
      ensures ok ==> InSegment(hw, next.g, slave, [], 0)
    {
      if ok {
        SegmentComplete(hw, at.g, slave, at.loaded, 0);
      }
      ghost var bus := at.g.before + [at.g.open] + Sent(at.loaded);
      next := Place(Segment(bus, Restart(Sadd(w), ReadBit(w)), NBytes(w), at.g.k), [], 0);
      hw := WriteCr2(hw, w);
      starts := starts + [hw];
      hw := SetStart(hw);
    }

    /** STOP after TC. */
    method End(ghost at: Place, ghost ok: bool)
      requires ok ==> InSegment(hw, at.g, slave, at.loaded, at.taken) && hw.tc && !hw.rxne
      modifies this`hw
      ensures hw.bus == old(hw.bus)
      ensures ok ==>
                && hw.heard == (if at.g.Reads() then at.g.k + at.g.n else at.g.k)
                && (if at.g.Reads() then at.taken == at.g.n else |at.loaded| == at.g.n)
                && Closing(hw, at.g.before + [at.g.open]
                               + (if at.g.Reads() then Received(slave, at.g.k, at.g.n) else Sent(at.loaded)) + [Stop])
    {
      if ok {
        SegmentComplete(hw, at.g, slave, at.loaded, at.taken);
      }
      hw := SetStop(hw);
    }

    /** The end of every polling call: TC and STOP. */
    method Finish(retries: uint16, ghost at: Place, ghost from: nat, ghost ok: bool) returns (failed: bool)
      requires fifo.Valid() && !irq && from <= |log|
      requires ok ==> InSegment(hw, at.g, slave, at.loaded, at.taken) && (at.g.Reads() ==> at.taken == at.g.n)
      modifies this`hw, this`log
      ensures failed ==> TimedOut(log, from, TC, retries, true)
      ensures failed && ok ==> InSegment(hw, at.g, slave, at.loaded, at.taken)
      ensures !failed && ok ==>
                && hw.heard == (if at.g.Reads() then at.g.k + at.g.n else at.g.k)
                && (at.g.Reads() ==> at.taken == at.g.n)
                && (at.g.Reads() ==>
                      Closing(hw, at.g.before + [at.g.open] + Received(slave, at.g.k, at.g.n) + [Stop]))
                && (!at.g.Reads() ==> Closing(hw, at.g.before + [at.g.open] + Sent(at.loaded) + [Stop]))
      ensures old(hw.bus) <= hw.bus && |old(log)| <= |log| <= |old(log)| + AtLeastOne(retries)
      ensures ok && !at.g.Reads() && !failed ==> |at.loaded| == at.g.n
    {
      hide InSegment, Closing, AtLeastOne, TimedOut, Received, Sent;
      failed := Await(TC, retries, at, from, ok);
      if !failed {
        End(at, ok);
      }
    }

    /** HAL_Delay after the STOP of a write. */
    method Delay(ghost bus: seq<Event>)
      modifies this`hw
      ensures Closing(old(hw), bus) ==> Closing(hw, bus) && hw.heard == old(hw.heard)
      ensures old(hw.bus) <= hw.bus
    {
      ghost var events := Advance();
      AdvancedGrows(old(hw), events, slave);
      if Closing(old(hw), bus) {
        ClosingStays(old(hw), events, slave, bus);
      }
    }

    /** A wait for BUSY == 0, by the state it finds: a bus that is free or about to be, one with a START pending, one
        that is held. */
    method AwaitFree(timeout: uint16, ghost bus: seq<Event>, ghost from: nat) returns (failed: bool)
      requires fifo.Valid() && !irq && from <= |log|
      modifies this`hw, this`log
      ensures Closing(old(hw), bus) ==> Closing(hw, bus) && hw.heard == old(hw.heard)
      ensures Armed(old(hw)) ==> hw == old(hw) || (Held(hw) && failed)
      ensures Held(old(hw)) ==> Held(hw) && failed
      ensures |old(log)| <= |log| <= |old(log)| + AtLeastOne(timeout)
      ensures if failed then TimedOut(log, from, BUSY, timeout, false) else hw.phase == Idle
      ensures old(hw.bus) <= hw.bus
    {
      ghost var events, w;
      failed, events, w := WaitForFlag(BUSY, timeout, false);
      AdvancedGrows(old(hw), events, slave);
      if Closing(old(hw), bus) {
        ClosingStays(old(hw), events, slave, bus);
      }
      if Armed(old(hw)) {
        ArmedStays(old(hw), events, slave);
      }
      if Held(old(hw)) {
        HeldStays(old(hw), events, slave);
      }
    }

    /** The start of every polling call: BUSY, CR2 and START for a write of n bytes, TXIS, register address. */
    method SendRegister(dev: byte, n: nat, reg: byte, retries: uint16)
      returns (err: Err, ghost at: Place, ghost ok: bool)
      requires fifo.Valid() && !irq
      modifies this`hw, this`log, this`starts
      ensures |old(log)| <= |log| <= |old(log)| + 2 * AtLeastOne(retries)
      ensures Explained(err, log, |old(log)|, retries) && (err == Ok || err == BusyTimeout || err == TxisTimeout)
      ensures PollEnd(Entry(old(hw), |old(starts)|, Cr2(n, false, dev)), hw, starts, err, ok, at, slave)
      ensures old(starts) <= starts
      ensures ok && err == Ok ==>
                && at == Place(Segment(Shown(old(hw)), Start(dev, false), n % 0x100, old(hw.heard)), [reg], 0)
                && InSegment(hw, at.g, slave, [reg], 0) && 0 < at.g.n
      ensures ok && n % 0x100 == 0 ==> err != Ok
      ensures at.taken == 0 && (err == Ok ==> at.loaded == [reg])
    {
      hide InSegment, TimedOut, AtLeastOne, PollEnd;
      var w := Cr2(n, false, dev);
      Cr2Fields(n, false, dev);
      ghost var bus, entry := Shown(hw), Entry(hw, |starts|, w);
      at, ok := Place(Segment(bus, Start(dev, false), n % 0x100, hw.heard), [], 0), Enterable(hw);
      var failed := AwaitFree(retries, bus, |old(log)|);
      if failed {
        SendEnd(entry, hw, starts, BusyTimeout, ok, at, slave);
        return BusyTimeout, at, ok;
      }
      ghost var begun;
      at, begun := Begin(w, bus);
      ok := ok && begun;
      failed := Await(TXIS, retries, at, |old(log)|, ok);
      if failed {
        SendEnd(entry, hw, starts, TxisTimeout, ok, at, slave);
        return TxisTimeout, at, ok;
      }
      ghost var mid := hw;
      at := LoadTxdr(reg, at, ok);
      SentOn(entry, mid, hw, starts, ok, at, slave);
      err := Ok;
    }

    /** The start of every polling read: the register address as a one-byte write, TC, and a repeated START for a
        read of n bytes. */
    method OpenRead(dev: byte, n: byte, reg: byte, retries: uint16)
      returns (err: Err, ghost at: Place, ghost ok: bool)
      requires fifo.Valid() && !irq
      modifies this`hw, this`log, this`starts
      ensures |old(log)| <= |log| <= |old(log)| + 3 * AtLeastOne(retries)
      ensures Explained(err, log, |old(log)|, retries) && err != RxneTimeout
      ensures PollEnd(Entry(old(hw), |old(starts)|, Cr2(1, false, dev)), hw, starts, err, ok, at, slave)
      ensures ok && err == Ok ==>
                && at == Place(Segment(Shown(old(hw)) + [Start(dev, false)] + [Tx(reg)], Restart(dev, true), n,
                                       old(hw.heard)), [], 0)
                && InSegment(hw, at.g, slave, [], 0)
    {
      hide *;
      ghost var entry := Entry(hw, |starts|, Cr2(1, false, dev));
      err, at, ok := SendRegister(dev, 1, reg, retries);
      if err != Ok {
        return;
      }
      ghost var mid, begun, first := hw, starts, at;
      var failed := Await(TC, retries, at, |old(log)|, ok);
      if failed {
        Told(TcTimeout, log, |old(log)|, retries);
        Ended(entry, mid, begun, first, hw, starts, TcTimeout, ok, at, slave);
        return TcTimeout, at, ok;
      }
      Cr2Fields(n, true, dev);
      SentOne(reg);
      if ok {
        WriteSegment(at.g);
      }
      at := Again(Cr2(n, true, dev), at, ok);
      Told(Ok, log, |old(log)|, retries);
      Ended(entry, mid, begun, first, hw, starts, Ok, ok, at, slave);
      err := Ok;
    }

    // The polling calls, in whatever state they are entered. `ok` says that no START pending at entry went out before
    // the call's own.

    /** quasar_i2c_write_blocking: on success the bus carries the same transaction as the interrupt-driven call. */
    method WriteBlocking(dev: byte, reg: byte, value: byte, retries: uint16)
      returns (err: Err, ghost ok: bool, ghost at: Place)
      requires fifo.Valid() && !irq
      modifies this`hw, this`log, this`starts
      ensures PollEnd(Entry(old(hw), |old(starts)|, Cr2(2, false, dev)), hw, starts, err, ok, at, slave)
      ensures ok && err == Ok ==> Carried(old(hw), hw, Single(WriteReg(dev, reg, value)), slave)
      ensures |old(log)| <= |log| <= |old(log)| + 4 * AtLeastOne(retries)
      ensures Explained(err, log, |old(log)|, retries)
    {
      hide *;
      ghost var was, entry := hw, Entry(hw, |starts|, Cr2(2, false, dev));
      err, at, ok := SendRegister(dev, 2, reg, retries);
      if err != Ok {
        return;
      }
      ghost var mid, begun, first := hw, starts, at;
      var failed := Await(TXIS, retries, at, |old(log)|, ok);
      if failed {
        Told(TxisTimeout, log, |old(log)|, retries);
        Ended(entry, mid, begun, first, hw, starts, TxisTimeout, ok, at, slave);
        return TxisTimeout, ok, at;
      }
      at := LoadTxdr(value, at, ok);
      if ok {
        WriteSegment(at.g);
      }
      failed := Finish(retries, at, |old(log)|, ok);
      if failed {
        Told(TcTimeout, log, |old(log)|, retries);
        Ended(entry, mid, begun, first, hw, starts, TcTimeout, ok, at, slave);
        return TcTimeout, ok, at;
      }
      assert [reg] + [value] == [reg, value];
      Delay(Shown(was) + [Start(dev, false)] + Sent([reg, value]) + [Stop]);
      Told(Ok, log, |old(log)|, retries);
      Ended(entry, mid, begun, first, hw, starts, Ok, ok, at, slave);
      if ok {
        Written(was, hw, dev, reg, value, slave);
      }
    }

    /** The received byte of a read, stored through its pointer. */
    method StoreOne(ptr: word, timeout: uint16, ghost at: Place, ghost from: nat, ghost ok: bool)
      returns (failed: bool, ghost next: Place)
      requires fifo.Valid() && !irq && from <= |log|
      requires ok ==> at.loaded == [] && at.taken == 0 && InSegment(hw, at.g, slave, [], 0)
      modifies this`hw, this`log, this`mem
      ensures failed ==> TimedOut(log, from, RXNE, timeout, true) && mem == old(mem) && next == at
      ensures !failed && ok ==> next == at.(taken := 1) && mem == old(mem)[ptr := slave(at.g.k)]
      ensures ok ==> InSegment(hw, at.g, slave, [], next.taken)
      ensures old(hw.bus) <= hw.bus && |old(log)| <= |log| <= |old(log)| + AtLeastOne(timeout)
    {
      hide InSegment, AtLeastOne, TimedOut;
      next := at;
      failed := Await(RXNE, timeout, at, from, ok);
      if failed {
        return;
      }
      var b;
      b, next := TakeRxdr(at, ok);
      mem := mem[ptr := b];
    }

    /** quasar_i2c_read_blocking: on success the same transaction and the same stored byte as the interrupt-driven
        call. */
    method ReadBlocking(dev: byte, reg: byte, ptr: word, retries: uint16)
      returns (err: Err, ghost ok: bool, ghost at: Place)
      requires fifo.Valid() && !irq
      modifies this`hw, this`mem, this`log, this`starts
      ensures PollEnd(Entry(old(hw), |old(starts)|, Cr2(1, false, dev)), hw, starts, err, ok, at, slave)
      ensures ok && err == Ok ==> Carried(old(hw), hw, Single(ReadReg(dev, reg, ptr)), slave)
      ensures ok && err == Ok ==> mem == StoredBy(Single(ReadReg(dev, reg, ptr)), old(mem), slave, old(hw.heard))
      ensures err == BusyTimeout || err == TxisTimeout || err == RxneTimeout ==> mem == old(mem)
      ensures ok ==> mem == old(mem) || mem == StoredBy(Single(ReadReg(dev, reg, ptr)), old(mem), slave, old(hw.heard))
      ensures |old(log)| <= |log| <= |old(log)| + 4 * AtLeastOne(retries) + AtLeastOne(RxneRetries(retries))
      ensures Explained(err, log, |old(log)|, retries)
    {
      hide *;
      ghost var was, entry := hw, Entry(hw, |starts|, Cr2(1, false, dev));
      err, at, ok := OpenRead(dev, 1, reg, retries);
      if err != Ok {
        return;
      }
      ghost var mid, begun, first := hw, starts, at;
      OneRead(dev, reg, ptr, slave, at.g.k, Shown(was), mem);
      var failed;
      failed, at := StoreOne(ptr, RxneRetries(retries), at, |old(log)|, ok);
      if failed {
        Told(RxneTimeout, log, |old(log)|, retries);
        Ended(entry, mid, begun, first, hw, starts, RxneTimeout, ok, at, slave);
        return RxneTimeout, ok, at;
      }
      failed := Finish(retries, at, |old(log)|, ok);
      if failed {
        Told(TcTimeout, log, |old(log)|, retries);
        Ended(entry, mid, begun, first, hw, starts, TcTimeout, ok, at, slave);
        return TcTimeout, ok, at;
      }
      Told(Ok, log, |old(log)|, retries);
      Ended(entry, mid, begun, first, hw, starts, Ok, ok, at, slave);
      if ok {
        ReadDone(was, hw, dev, reg, ptr, slave);
      }
      err := Ok;
    }

    /** quasar_i2c_write_burst_blocking. NBYTES is size + 1 cut to 8 bits, so a burst of 255 bytes can only fail. */
    method WriteBurstBlocking(dev: byte, reg: byte, values: array<byte>, size: byte, retries: uint16)
      returns (err: Err, ghost ok: bool, ghost at: Place)
      requires fifo.Valid() && !irq && size <= values.Length
      modifies this`hw, this`log, this`starts
      ensures PollEnd(Entry(old(hw), |old(starts)|, Cr2(size + 1, false, dev)), hw, starts, err, ok, at, slave)
      ensures ok && err == Ok ==> size <= 254 && Carried(old(hw), hw, WriteMany(dev, reg, values[..size]), slave)
      ensures ok && size == 255 ==> err == BusyTimeout || err == TxisTimeout
      ensures |old(log)| <= |log| <= |old(log)| + (size + 3) * AtLeastOne(retries)
      ensures Explained(err, log, |old(log)|, retries)
    {
      hide *;
      ghost var was, limit := hw, AtLeastOne(retries);
      ghost var entry := Entry(hw, |starts|, Cr2(size + 1, false, dev));
      err, at, ok := SendRegister(dev, size + 1, reg, retries);
      ghost var mid, begun, first := hw, starts, at;
      Budget(size, 0, 3, limit);
      if err != Ok {
        return;
      }
      ghost var g := at.g;
      for i := 0 to size
        invariant at == Place(g, [reg] + values[..i], 0) && (ok ==> InSegment(hw, g, slave, at.loaded, 0))
        invariant mid.bus <= hw.bus && starts == begun
        invariant |old(log)| <= |log| <= |old(log)| + i * limit + 2 * limit
      {
        Budget(size, i, 3, limit);
        var failed := Await(TXIS, retries, at, |old(log)|, ok);
        if failed {
          Told(TxisTimeout, log, |old(log)|, retries);
          Ended(entry, mid, begun, first, hw, starts, TxisTimeout, ok, at, slave);
          return TxisTimeout, ok, at;
        }
        at := LoadTxdr(values[i], at, ok);
      }
      Budget(size, size, 3, limit);
      if ok {
        WriteSegment(at.g);
      }
      var failed := Finish(retries, at, |old(log)|, ok);
      if failed {
        Told(TcTimeout, log, |old(log)|, retries);
        Ended(entry, mid, begun, first, hw, starts, TcTimeout, ok, at, slave);
        return TcTimeout, ok, at;
      }
      Delay(Shown(was) + [Start(dev, false)] + Sent([reg] + values[..size]) + [Stop]);
      Told(Ok, log, |old(log)|, retries);
      Ended(entry, mid, begun, first, hw, starts, Ok, ok, at, slave);
      if ok {
        BurstWritten(was, hw, dev, reg, values[..size], slave);
      }
    }

    /** The receiving loop of a burst read. */
    method ReceiveAll(values: array<byte>, size: byte, timeout: uint16, ghost start: Place, ghost from: nat,
                      ghost ok: bool)
      returns (failed: bool, ghost at: Place)
      requires fifo.Valid() && !irq && size <= values.Length && from <= |log|
      requires ok ==> start.loaded == [] && start.taken == 0 && InSegment(hw, start.g, slave, [], 0)
      modifies this`hw, this`log, values
      ensures ok ==> at == Place(start.g, [], at.taken) && InSegment(hw, at.g, slave, [], at.taken)
      ensures ok ==> at.taken <= size && (forall i :: 0 <= i < at.taken ==> values[i] == slave(at.g.k + i))
      ensures ok ==> forall i :: at.taken <= i < values.Length ==> values[i] == old(values[i])
      ensures forall i :: size <= i < values.Length ==> values[i] == old(values[i])
      ensures if failed then TimedOut(log, from, RXNE, timeout, true) else ok ==> at.taken == size
      ensures |old(log)| <= |log| <= |old(log)| + size * AtLeastOne(timeout)
      ensures old(hw.bus) <= hw.bus
    {
      hide InSegment, AtLeastOne, TimedOut;
      ghost var limit := AtLeastOne(timeout);
      at := start;
      Budget(size, 0, 0, limit);
      for i := 0 to size
        invariant ok ==> at == Place(start.g, [], i) && InSegment(hw, start.g, slave, [], i)
        invariant old(hw.bus) <= hw.bus
        invariant ok ==> forall j :: 0 <= j < i ==> values[j] == slave(start.g.k + j)
        invariant forall j :: i <= j < values.Length ==> values[j] == old(values[j])
        invariant |old(log)| <= |log| <= |old(log)| + i * limit
      {
        Budget(size, i, 0, limit);
        failed := Await(RXNE, timeout, at, from, ok);
        if failed {
          return;
        }
        var b;
        b, at := TakeRxdr(at, ok);
        values[i] := b;
      }
      failed := false;
    }

    /** A burst read up to its STOP. */
    method ReadBurst(dev: byte, reg: byte, values: array<byte>, size: byte, retries: uint16)
      returns (err: Err, ghost ok: bool, ghost at: Place)
      requires fifo.Valid() && !irq && size <= values.Length
      modifies this`hw, this`log, this`starts, values
      ensures PollEnd(Entry(old(hw), |old(starts)|, Cr2(1, false, dev)), hw, starts, err, ok, at, slave)
      ensures ok && err == Ok ==>
                && hw.heard == old(hw.heard) + size
                && Closing(hw, Shown(old(hw)) + [Start(dev, false)] + [Tx(reg)] + [Restart(dev, true)]
                               + Received(slave, old(hw.heard), size) + [Stop])
      ensures ok && err == Ok ==> forall i :: 0 <= i < size ==> values[i] == slave(old(hw.heard) + i)
      ensures ok ==> forall i :: 0 <= i < size ==> values[i] == old(values[i]) || values[i] == slave(old(hw.heard) + i)
      ensures forall i :: size <= i < values.Length ==> values[i] == old(values[i])
      ensures err == BusyTimeout ==> values[..] == old(values[..])
      ensures |old(log)| <= |log| <= |old(log)| + 4 * AtLeastOne(retries) + size * AtLeastOne(RxneRetries(retries))
      ensures Explained(err, log, |old(log)|, retries)
    {
      hide InSegment, Closing, Received, AtLeastOne, RxneRetries, TimedOut, PollEnd, Cr2, Explained;
      ghost var entry := Entry(hw, |starts|, Cr2(1, false, dev));
      err, at, ok := OpenRead(dev, size, reg, retries);
      NoRounds(size, AtLeastOne(RxneRetries(retries)));
      if err != Ok {
        return;
      }
      ghost var mid, begun, first := hw, starts, at;
      var failed;
      failed, at := ReceiveAll(values, size, RxneRetries(retries), at, |old(log)|, ok);
      if failed {
        Told(RxneTimeout, log, |old(log)|, retries);
        Ended(entry, mid, begun, first, hw, starts, RxneTimeout, ok, at, slave);
        return RxneTimeout, ok, at;
      }
      failed := Finish(retries, at, |old(log)|, ok);
      if failed {
        Told(TcTimeout, log, |old(log)|, retries);
        Ended(entry, mid, begun, first, hw, starts, TcTimeout, ok, at, slave);
        return TcTimeout, ok, at;
      }
      Told(Ok, log, |old(log)|, retries);
      Ended(entry, mid, begun, first, hw, starts, Ok, ok, at, slave);
      err := Ok;
    }

    /** quasar_i2c_read_burst_blocking, which also waits for the STOP to leave the bus; `stopped` says that it got so
        far, so that BUSY is then the wait after the STOP. */
    method ReadBurstBlocking(dev: byte, reg: byte, values: array<byte>, size: byte, retries: uint16)
      returns (err: Err, ghost ok: bool, ghost at: Place, ghost stopped: bool)
      requires fifo.Valid() && !irq && size <= values.Length
      modifies this`hw, this`log, this`starts, values
      ensures var entry := Entry(old(hw), |old(starts)|, Cr2(1, false, dev));
              if !stopped then err != Ok && PollEnd(entry, hw, starts, err, ok, at, slave)
              else OwnStart(entry, hw.bus, starts, ok) && |starts| > |old(starts)|
      ensures stopped
              ==> !Held(old(hw)) && (err == Ok || err == BusyTimeout) && (Closing(old(hw), Shown(old(hw))) ==> ok)
      ensures stopped && ok ==>
                && Carried(old(hw), hw, ReadMany(dev, reg, size), slave)
                && (forall i :: 0 <= i < size ==> values[i] == slave(old(hw.heard) + i))
                && (err == Ok ==> hw.phase == Idle)
      ensures ok ==> forall i :: 0 <= i < size ==> values[i] == old(values[i]) || values[i] == slave(old(hw.heard) + i)
      ensures forall i :: size <= i < values.Length ==> values[i] == old(values[i])
      ensures err == BusyTimeout && !stopped ==> values[..] == old(values[..])
      ensures |old(log)| <= |log| <= |old(log)| + 5 * AtLeastOne(retries) + size * AtLeastOne(RxneRetries(retries))
      ensures Explained(err, log, |old(log)|, retries)
    {
      hide Closing, Received, AtLeastOne, RxneRetries, TimedOut, PollEnd, OwnStart, Carried, Cr2;
      ghost var was, entry := hw, Entry(hw, |starts|, Cr2(1, false, dev));
      err, ok, at := ReadBurst(dev, reg, values, size, retries);
      PollEntry(entry, hw, starts, err, ok, at, slave);
      stopped := err == Ok;
      if err != Ok {
        return;
      }
      ghost var mid := hw;
      ghost var done := Shown(was) + [Start(dev, false)] + [Tx(reg)] + [Restart(dev, true)]
                        + Received(slave, was.heard, size) + [Stop];
      var failed := AwaitFree(retries, done, |old(log)|);
      if ok {
        BurstRead(was, hw, dev, reg, size, slave);
      }
      OwnStartGrows(entry, mid.bus, hw.bus, starts, ok);
      err := if failed then BusyTimeout else Ok;
    }
  }

  /** A polling call entered while no transfer runs that has carried out its act, or was refused on BUSY before it
      began, is a turn of a session; also a burst read whose wait after the STOP has timed out. */
  lemma PollIsTurn(s: Sys, t: Sys, act: Act, done: bool, slave: Slave)
    requires Closing(s.hw, Shown(s.hw)) && t.fifo == s.fifo && t.isr == s.isr
    requires if done then Carried(s.hw, t.hw, act, slave) && t.mem == StoredBy(act, s.mem, slave, s.hw.heard)
             else Refused(s.hw, t.hw, BusyTimeout) && t.mem == s.mem
    ensures Polled(s, act, done, t, slave)
  {
    hide Shape, StoredBy;
  }

  /** How a polling call is entered: the controller, the number of STARTs set before, and the header it writes first. */
  datatype Entry = Entry(h: Hw, from: nat, w: word)

  /** How a polling call ends: refused on BUSY, cut short inside its own transfer, or carried out. */
  ghost predicate PollEnd(entry: Entry, t: Hw, starts: seq<Hw>, err: Err, ok: bool, at: Place, slave: Slave) {
    var h := entry.h;
    && Refused(h, t, err)
    && (Closing(h, Shown(h)) ==> ok) && (ok ==> Enterable(h))
    && OwnStart(entry, t.bus, starts, ok) && (err == BusyTimeout <==> |starts| == entry.from)
    && (ok && err != Ok && err != BusyTimeout ==> CutShort(t, at, slave, Shown(h), err == TxisTimeout))
  }

  lemma PollEntry(entry: Entry, t: Hw, starts: seq<Hw>, err: Err, ok: bool, at: Place, slave: Slave)
    requires PollEnd(entry, t, starts, err, ok, at, slave)
    ensures (Closing(entry.h, Shown(entry.h)) ==> ok) && (ok ==> Enterable(entry.h))
            && OwnStart(entry, t.bus, starts, ok)
    ensures err == BusyTimeout <==> |starts| == entry.from
    ensures err != BusyTimeout ==> !Held(entry.h)
  {
  }

  lemma SentOn(entry: Entry, mid: Hw, t: Hw, starts: seq<Hw>, ok: bool, at: Place, slave: Slave)
    requires OwnStart(entry, mid.bus, starts, ok) && |starts| > entry.from && mid.bus <= t.bus && !Held(entry.h)
    requires (Closing(entry.h, Shown(entry.h)) ==> ok) && (ok ==> Enterable(entry.h))
    ensures PollEnd(entry, t, starts, Ok, ok, at, slave)
  {
    hide Closing, Enterable;
  }

  /** The end of a call that got past BUSY and whose first part ended at `mid`. */
  lemma Ended(entry: Entry, mid: Hw, begun: seq<Hw>, first: Place, t: Hw, starts: seq<Hw>, err: Err, ok: bool,
              at: Place, slave: Slave)
    requires PollEnd(entry, mid, begun, Ok, ok, first, slave) && err != BusyTimeout
    requires mid.bus <= t.bus && begun <= starts
    requires ok && err != Ok ==>
               && InSegment(t, at.g, slave, at.loaded, at.taken)
               && Shown(entry.h) <= at.g.before && Stop !in at.g.before[|Shown(entry.h)|..]
               && (at.g.open.Start? ==> at.g.before == Shown(entry.h))
               && (at.loaded == [] && at.taken == 0 && at.g.open.Start? ==> err == TxisTimeout)
    ensures PollEnd(entry, t, starts, err, ok, at, slave)
  {
    hide Closing, InSegment, Enterable;
    if ok && err != Ok {
      SegmentCutShort(t, at, slave, Shown(entry.h), err == TxisTimeout);
    }
  }

  lemma WriteSegment(g: Segment)
    requires g.open.Start? && !g.open.rd
    ensures !g.Reads()
  {
  }

  lemma Told(err: Err, log: seq<Poll>, from: nat, retries: uint16)
    requires err != BusyTimeout
    requires err == TxisTimeout ==> TimedOut(log, from, TXIS, retries, true)
    requires err == TcTimeout ==> TimedOut(log, from, TC, retries, true)
    requires err == RxneTimeout ==> TimedOut(log, from, RXNE, RxneRetries(retries), true)
    ensures Explained(err, log, from, retries)
  {
  }

  lemma OwnStartGrows(entry: Entry, bus: seq<Event>, later: seq<Event>, starts: seq<Hw>, ok: bool)
    requires OwnStart(entry, bus, starts, ok) && bus <= later
    ensures OwnStart(entry, later, starts, ok)
  {
    hide Enterable;
  }

  /** The first part of a polling call has failed. */
  lemma SendEnd(entry: Entry, t: Hw, starts: seq<Hw>, err: Err, ok: bool, at: Place, slave: Slave)
    requires Refused(entry.h, t, err) && (err == BusyTimeout || err == TxisTimeout)
    requires (Closing(entry.h, Shown(entry.h)) ==> ok) && (ok ==> Enterable(entry.h))
    requires OwnStart(entry, t.bus, starts, ok) && (err == BusyTimeout <==> |starts| == entry.from)
    requires ok ==> at.g.before == Shown(entry.h)
    requires ok && err == TxisTimeout ==> InSegment(t, at.g, slave, at.loaded, at.taken)
    ensures PollEnd(entry, t, starts, err, ok, at, slave)
  {
    hide Closing, InSegment, Enterable;
    if ok && err == TxisTimeout {
      SegmentCutShort(t, at, slave, Shown(entry.h), true);
    }
  }

  ghost predicate Carried(h: Hw, t: Hw, act: Act, slave: Slave) {
    Closing(t, Shown(h) + Shape(act, slave, h.heard)) && t.heard == h.heard + HeardIn(act)
  }

  lemma Written(h: Hw, t: Hw, dev: byte, reg: byte, value: byte, slave: Slave)
    requires Closing(t, Shown(h) + [Start(dev, false)] + Sent([reg, value]) + [Stop]) && t.heard == h.heard
    ensures Carried(h, t, Single(WriteReg(dev, reg, value)), slave)
  {
    hide Closing;
    SentTwo(reg, value);
    assert Shown(h) + [Start(dev, false)] + [Tx(reg), Tx(value)] + [Stop]
        == Shown(h) + ([Start(dev, false), Tx(reg), Tx(value)] + [Stop]);
  }

  lemma ReadDone(h: Hw, t: Hw, dev: byte, reg: byte, ptr: word, slave: Slave)
    requires Closing(t, Shown(h) + [Start(dev, false)] + [Tx(reg)] + [Restart(dev, true)]
                        + Received(slave, h.heard, 1) + [Stop]) && t.heard == h.heard + 1
    ensures Carried(h, t, Single(ReadReg(dev, reg, ptr)), slave)
  {
    hide Closing;
    OneRead(dev, reg, ptr, slave, h.heard, Shown(h), map[]);
  }

  lemma BurstWritten(h: Hw, t: Hw, dev: byte, reg: byte, values: seq<byte>, slave: Slave)
    requires Closing(t, Shown(h) + [Start(dev, false)] + Sent([reg] + values) + [Stop]) && t.heard == h.heard
    ensures Carried(h, t, WriteMany(dev, reg, values), slave)
  {
    hide Closing, Sent;
    assert Shown(h) + [Start(dev, false)] + Sent([reg] + values) + [Stop]
        == Shown(h) + ([Start(dev, false)] + Sent([reg] + values) + [Stop]);
  }

  lemma BurstRead(h: Hw, t: Hw, dev: byte, reg: byte, n: nat, slave: Slave)
    requires Closing(t, Shown(h) + [Start(dev, false)] + [Tx(reg)] + [Restart(dev, true)]
                        + Received(slave, h.heard, n) + [Stop]) && t.heard == h.heard + n
    ensures Carried(h, t, ReadMany(dev, reg, n), slave)
  {
    hide Closing, Received;
    BurstTrace(Shown(h), [Start(dev, false)], [Tx(reg)], [Restart(dev, true)], Received(slave, h.heard, n), Stop);
  }

  lemma BurstTrace<T>(a: seq<T>, b: seq<T>, c: seq<T>, d: seq<T>, e: seq<T>, stop: T)
    ensures a + b + c + d + e + [stop] == a + (b + c + d + e + [stop])
  {
  }

  lemma NoRounds(n: nat, limit: nat)
    ensures 0 <= n * limit
  {
  }

  /** i rounds out of n, and `extra` more, stay within the budget. */
  lemma Budget(n: nat, i: nat, extra: nat, limit: nat)
    requires i <= n
    ensures (i + 1) * limit == i * limit + limit && i * limit <= n * limit
    ensures i < n ==> i * limit + limit <= n * limit
    ensures (n + extra) * limit == n * limit + extra * limit
  {
  }

  lemma OneRead(dev: byte, reg: byte, ptr: word, slave: Slave, k: nat, bus: seq<Event>, mem: Memory)
    ensures bus + [Start(dev, false)] + [Tx(reg)] + [Restart(dev, true)] + Received(slave, k, 1) + [Stop]
         == bus + Shape(Single(ReadReg(dev, reg, ptr)), slave, k)
    ensures StoredBy(Single(ReadReg(dev, reg, ptr)), mem, slave, k) == mem[ptr := slave(k)]
  {
    assert Received(slave, k, 1) == [Rx(slave(k))];
    var xs := [ReadReg(dev, reg, ptr)];
    assert xs[1..] == [];
    assert Delivered(mem, xs, slave, k) == Delivered(mem[ptr := slave(k)], [], slave, k + 1);
  }

  /** A wait for BUSY that has timed out leaves a free bus free and a held one held; a held bus is always refused. */
  ghost predicate Refused(h: Hw, t: Hw, err: Err) {
    && (Held(h) ==> err == BusyTimeout)
    && (err == BusyTimeout ==>
          && (Held(h) ==> Held(t))
          && (Closing(h, Shown(h)) ==> Closing(t, Shown(h)) && t.heard == h.heard)
          && (Armed(h) ==> t == h || Held(t)))
  }

  /** A START that was pending went out before the call's SET_BIT of START, with the old header or the call's own. */
  predicate SentEarly(h: Hw, m: Hw, w: word) {
    Armed(h) && (Shows(h.bus, h.cr2, m.bus) || Shows(h.bus, w, m.bus))
  }

  /** START with header w is what follows `before` on the bus. */
  predicate Shows(before: seq<Event>, w: word, bus: seq<Event>) {
    before + [Start(Sadd(w), ReadBit(w))] <= bus
  }

  /** What `ok` means; the call's own STARTs are those in `starts` from index `from` on. Without a START of its own the
      call was refused. With one, `ok` says exactly that no transfer was on the bus at entry and none when START was
      set; if there was none at entry and `ok` is false, a START that was pending went out in between, and the bus shows
      it. */
  ghost predicate OwnStart(entry: Entry, bus: seq<Event>, starts: seq<Hw>, ok: bool) {
    var Entry(h, from, w) := entry;
    && from <= |starts|
    && (|starts| == from ==> (ok <==> Enterable(h)))
    && (|starts| > from ==>
          && (ok <==> Enterable(h) && starts[from].phase == Idle)
          && (Enterable(h) && !ok ==> SentEarly(h, starts[from], w))
          && starts[from].bus <= bus)
  }

  lemma {:induction false} AdvancedGrows(h: Hw, events: seq<HwEvent>, slave: Slave)
    ensures h.bus <= Advanced(h, events, slave).bus
    decreases events
  {
    if events != [] {
      AdvancedGrows(if Enabled(h, events[0]) then Apply(h, events[0], slave) else h, events[1..], slave);
    }
  }

  lemma {:induction false} ClearStays(h: Hw, events: seq<HwEvent>, slave: Slave, bus: seq<Event>)
    requires Clear(h, bus)
    ensures var t := Advanced(h, events, slave);
            t == h || (Held(t) && Armed(h) && Shows(bus, h.cr2, t.bus))
    decreases events
  {
    if events != [] {
      if Enabled(h, events[0]) {
        var t := Apply(h, events[0], slave);
        HeldStays(t, events[1..], slave);
        AdvancedGrows(t, events[1..], slave);
      } else {
        ClearStays(h, events[1..], slave, bus);
      }
    }
  }

  /** RXNE is only up while software has bytes of a read segment to take. */
  lemma ReadToTheEnd(h: Hw, g: Segment, slave: Slave, loaded: seq<byte>, taken: nat)
    requires InSegment(h, g, slave, loaded, taken)
    ensures h.rxne ==> g.Reads() && taken < g.n
  {
  }

  lemma NoPolls(log: seq<Poll>, flag: Flag, expected: bool)
    ensures Missed(log, log, flag, expected, 0)
  {
  }

  lemma OneMore(before: seq<Poll>, sofar: seq<Poll>, flag: Flag, expected: bool, n: nat)
    requires n > 0 && Missed(before, sofar, flag, expected, n - 1)
    ensures Missed(before, sofar + [Poll(flag, expected, !expected)], flag, expected, n)
  {
  }

  lemma WaitFails(before: seq<Poll>, sofar: seq<Poll>, flag: Flag, timeout: uint16, expected: bool, n: nat,
                  status: bool)
    requires n > 0 && Missed(before, sofar, flag, expected, n - 1) && n >= timeout && (n > 1 ==> n - 1 < timeout)
    ensures WaitLog(before, sofar + [Poll(flag, expected, status)], flag, timeout, expected, n - 1, status, true)
  {
  }

  lemma WaitSucceeds(before: seq<Poll>, sofar: seq<Poll>, flag: Flag, timeout: uint16, expected: bool, n: nat)
    requires n > 0 && Missed(before, sofar, flag, expected, n - 1) && n < timeout
    ensures WaitLog(before, sofar + [Poll(flag, expected, expected)], flag, timeout, expected, n - 1, expected, false)
  {
  }

  lemma NothingYet(s: Sys, slave: Slave, flag: Flag, expected: bool)
    ensures ValidWait(s, [], slave, flag, expected) && Waited(s, [], slave, flag, expected) == s && ReadsIn([]) == 0
    ensures Advanced(s.hw, [], slave) == s.hw
  {
  }

  lemma OneMismatch(s: Sys, slave: Slave, flag: Flag, expected: bool)
    requires s.isr.None? && Raised(s.hw, flag) != expected
    ensures ValidWait(s, [Thread], slave, flag, expected) && Waited(s, [Thread], slave, flag, expected) == s
    ensures ReadsIn([Thread]) == 1
  {
    assert [Thread][1..] == [];
  }

  lemma PulledFits(queue: seq<byte>)
    ensures Pulled(queue) == Fifo.Assembled(queue, 4, 0)
  {
  }

  lemma WholeImage(w: word)
    ensures Reversed(Image(w)[..4]) == Queued(w)
  {
  }
}
