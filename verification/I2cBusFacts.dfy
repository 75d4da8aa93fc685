/** What every run of the engine shows on the bus, framed or not: openings, data, STOP, and what they cost in bytes of
    the queue. */
module I2cBusFacts {
  import opened Words
  import opened Fifo
  import opened I2cBus
  import opened I2cEngine
  import opened I2cDecode
  import opened I2cCalls
  import opened I2cOverlap
  import opened I2cHeaders

  /** What is true of every controller state that the handler can meet. */
  ghost predicate Sane(s: Sys) {
    var h := s.hw;
    && (h.txis ==> h.phase == Sending && h.left > 0 && h.txdr.None?)
    && (h.txdr.Some? ==> h.phase == Sending && h.left > 0)
    && (h.tc ==> h.phase != Idle && h.left == 0 && h.txdr.None? && !h.start && !h.stop)
    && (h.phase == Idle ==> !h.stop && h.left == 0)
    && (s.isr.Some? ==>
          var f := s.isr.value; (f.txis ==> h.txis) && (f.rxne ==> h.rxne) && (f.tc ==> h.tc))
  }

  lemma SaneStep(s: Sys, step: Step, slave: Slave)
    requires Sane(s) && CanStep(s, step)
    ensures Sane(Stepped(s, step, slave)) && s.hw.bus <= Stepped(s, step, slave).hw.bus
  {
    hide Pulled, Sadd, ReadBit, StartBit, StopBit, NBytes;
  }

  /** A run does not end with a START request or inside a segment. */
  lemma SaneMoves(s: Sys)
    requires Sane(s) && (s.hw.start || s.hw.phase != Idle)
    ensures !Stuck(s)
  {
    assert CanStep(s, Hardware(Address)) || CanStep(s, Hardware(Request)) || CanStep(s, Hardware(Shift))
        || CanStep(s, Hardware(Arrive)) || CanStep(s, Hardware(Complete)) || CanStep(s, Hardware(Halt))
        || CanStep(s, Enter) || CanStep(s, Body);
  }

  /** START is requested, or an opening condition has been sent since the bus was i events long. */
  ghost predicate Opens(s: Sys, i: nat) {
    Sane(s) && i <= |s.hw.bus| && (s.hw.start || exists j :: i <= j < |s.hw.bus| && IsOpening(s.hw.bus[j]))
  }

  predicate IsOpening(e: Event) { e.Start? || e.Restart? }

  lemma {:induction false} OpensRun(s: Sys, run: seq<Step>, i: nat, slave: Slave)
    requires Opens(s, i) && ValidRun(s, run, slave) && Stuck(Ran(s, run, slave))
    ensures var bus := Ran(s, run, slave).hw.bus; exists j :: i <= j < |bus| && IsOpening(bus[j])
    decreases run
  {
    hide Sane, Stuck;
    if run == [] {
      if s.hw.start {
        SaneMoves(s);
      }
    } else {
      OpensStep(s, run[0], i, slave);
      OpensRun(Stepped(s, run[0], slave), run[1..], i, slave);
    }
  }

  /** Only sending it ends a START request. */
  lemma StartLeaves(s: Sys, step: Step, slave: Slave)
    requires s.hw.start && CanStep(s, step)
    ensures var t := Stepped(s, step, slave);
            !t.hw.start ==> |t.hw.bus| > |s.hw.bus| && IsOpening(t.hw.bus[|s.hw.bus|])
  {
    hide Pulled, Sadd, ReadBit, StartBit, StopBit, NBytes;
    if step.Body? {
      HandlerKeepsStart(s, s.isr.value);
    }
  }

  lemma HandlerKeepsStart(s: Sys, f: Status)
    requires s.hw.start
    ensures Handled(s, f).hw.start
  {
    hide Pulled, StartBit, StopBit;
  }

  lemma OpensStep(s: Sys, step: Step, i: nat, slave: Slave)
    requires Opens(s, i) && CanStep(s, step)
    ensures Opens(Stepped(s, step, slave), i)
  {
    hide Sane, Pulled, Sadd, ReadBit, StartBit, StopBit, NBytes;
    SaneStep(s, step, slave);
    var t := Stepped(s, step, slave);
    if s.hw.start {
      StartLeaves(s, step, slave);
    }
    hide Stepped, CanStep;
    if s.hw.start && !t.hw.start {
      assert IsOpening(t.hw.bus[|s.hw.bus|]);
    } else if !s.hw.start {
      var j :| i <= j < |s.hw.bus| && IsOpening(s.hw.bus[j]);
      assert t.hw.bus[j] == s.hw.bus[j];
    }
  }

  /** In a segment that ends with event i: the events before it are data, and it is an opening condition or STOP, STOP
      if `halting`. */
  ghost predicate Stretch(s: Sys, base: nat, i: nat, halting: bool) {
    var h := s.hw;
    && Sane(s) && base <= i && base <= |h.bus| && (forall j :: base <= j < |h.bus| && j < i ==> IsData(h.bus[j]))
    && (if |h.bus| <= i then h.phase != Idle && |h.bus| + h.left == i && (halting ==> h.stop)
        else !IsData(h.bus[i]) && (halting ==> h.bus[i] == Stop))
  }

  lemma StretchStep(s: Sys, step: Step, base: nat, i: nat, halting: bool, slave: Slave)
    requires Stretch(s, base, i, halting) && CanStep(s, step)
    ensures Stretch(Stepped(s, step, slave), base, i, halting)
  {
    hide Pulled, Sadd, ReadBit, StartBit, StopBit, NBytes;
    SaneStep(s, step, slave);
    if step.Body? {
      HandlerKeepsBus(s, s.isr.value);
      HandlerInSegment(s, s.isr.value);
      hide Handled;
    }
  }

  /** The handler moves no byte on the bus and takes no STOP request back. */
  lemma HandlerInSegment(s: Sys, f: Status)
    ensures var h := Handled(s, f).hw; h.phase == s.hw.phase && h.left == s.hw.left && (s.hw.stop ==> h.stop)
  {
    ChainInSegment(s);
    ChainInSegment(StoreByte(s));
    hide StopOrChain, Pulled;
  }

  lemma ChainInSegment(s: Sys)
    ensures var h := StopOrChain(s).hw; h.phase == s.hw.phase && h.left == s.hw.left && (s.hw.stop ==> h.stop)
  {
    hide Pulled, StartBit, StopBit;
  }

  lemma {:induction false} StretchRun(s: Sys, run: seq<Step>, base: nat, i: nat, halting: bool, slave: Slave)
    requires Stretch(s, base, i, halting) && ValidRun(s, run, slave) && Stuck(Ran(s, run, slave))
    ensures var bus := Ran(s, run, slave).hw.bus;
            && i < |bus| && !IsData(bus[i]) && (halting ==> bus[i] == Stop)
            && forall j :: base <= j < i ==> IsData(bus[j])
    decreases run
  {
    hide Stuck;
    if run == [] {
      SaneMovesIfBusy(s);
    } else {
      StretchStep(s, run[0], base, i, halting, slave);
      hide Stretch;
      StretchRun(Stepped(s, run[0], slave), run[1..], base, i, halting, slave);
    }
  }

  lemma SaneMovesIfBusy(s: Sys)
    requires Sane(s)
    ensures s.hw.phase != Idle ==> !Stuck(s)
  {
    if s.hw.phase != Idle {
      SaneMoves(s);
    }
  }

  /** START is requested with header w inside a segment that ends with event i: its repeated START follows, and as many
      data events as w asks for. */
  ghost predicate Pending(s: Sys, base: nat, i: nat, w: word) {
    var h := s.hw;
    && Sane(s) && base <= i && base <= |h.bus| && (forall j :: base <= j < |h.bus| && j < i ==> IsData(h.bus[j]))
    && (if |h.bus| <= i then h.phase != Idle && |h.bus| + h.left == i && h.start && !h.stop && h.cr2 == w
        else h.bus[i] == Restart(Sadd(w), ReadBit(w)) && Stretch(s, i + 1, i + 1 + NBytes(w), false))
  }

  lemma PendingStep(s: Sys, step: Step, base: nat, i: nat, w: word, slave: Slave)
    requires Pending(s, base, i, w) && CanStep(s, step)
    ensures Pending(Stepped(s, step, slave), base, i, w)
  {
    hide Pulled, Sadd, ReadBit, StartBit, StopBit, NBytes;
    SaneStep(s, step, slave);
    if |s.hw.bus| > i {
      StretchStep(s, step, i + 1, i + 1 + NBytes(w), false, slave);
    }
  }

  lemma {:induction false} PendingRun(s: Sys, run: seq<Step>, base: nat, i: nat, w: word, slave: Slave)
    requires Pending(s, base, i, w) && ValidRun(s, run, slave) && Stuck(Ran(s, run, slave))
    ensures var bus, n := Ran(s, run, slave).hw.bus, i + 1 + NBytes(w);
            && n < |bus| && bus[i] == Restart(Sadd(w), ReadBit(w)) && !IsData(bus[n])
            && (forall j :: base <= j < i ==> IsData(bus[j])) && (forall j :: i < j < n ==> IsData(bus[j]))
    decreases run
  {
    hide Stuck, Sadd, ReadBit, NBytes;
    if run == [] {
      SaneMovesIfBusy(s);
    } else {
      PendingStep(s, run[0], base, i, w, slave);
      hide Pending;
      PendingRun(Stepped(s, run[0], slave), run[1..], base, i, w, slave);
    }
  }

  /** How many queue bytes an event on the bus stands for. */
  function Cost(e: Event): nat {
    match e
    case Start(_, _) => 4
    case Restart(_, _) => 4
    case Tx(_) => 1
    case Rx(_) => 4
    case Stop => 0
  }

  function Costs(events: seq<Event>): nat {
    if events == [] then 0 else Cost(events[0]) + Costs(events[1..])
  }

  lemma {:induction false} CostsAppend(a: seq<Event>, b: seq<Event>)
    ensures Costs(a + b) == Costs(a) + Costs(b)
  {
    if a == [] {
      assert a + b == b;
    } else {
      assert (a + b)[1..] == a[1..] + b;
      CostsAppend(a[1..], b);
    }
  }

  lemma {:induction false} SentCosts(bytes: seq<byte>)
    ensures Costs(Sent(bytes)) == |bytes|
  {
    if bytes != [] {
      SentCosts(bytes[1..]);
      assert Sent(bytes)[1..] == Sent(bytes[1..]);
    }
  }

  lemma DataCosts(seg: Seg, slave: Slave, k: nat)
    ensures Costs(seg.Data(slave, k)) == |seg.Payload()| && Stop !in seg.Data(slave, k)
  {
    hide Queued;
    if seg.Send? {
      SentCosts(seg.bytes);
    } else {
      assert [Rx(slave(k))][1..] == [];
    }
  }

  lemma {:induction false} TraceCosts(segs: seq<Seg>, slave: Slave, k: nat)
    ensures Costs(Trace(segs, slave, k, false)) == |Stream(segs)| && Stop !in Trace(segs, slave, k, false)
  {
    hide Queued;
    if segs != [] {
      var seg := segs[0];
      var opening, data, tail := [Restart(seg.dev, seg.Recv?)], seg.Data(slave, k),
                                 Trace(segs[1..], slave, k + seg.Heard(), false);
      DataCosts(seg, slave, k);
      TraceCosts(segs[1..], slave, k + seg.Heard());
      CostsAppend(opening + data, tail);
      CostsAppend(opening, data);
      assert opening[1..] == [];
    }
  }

  /** What the bus has cost in bytes of the queue, what is on its way to the bus, and what is queued. */
  function Paid(s: Sys): int {
    Costs(s.hw.bus) + |s.fifo| + (if s.hw.start then 4 else 0) + (if s.hw.txdr.Some? then 1 else 0)
    - (if s.hw.rxne then 4 else 0)
  }

  /** Only a run that has emptied the queue comes to rest. */
  predicate Drained(s: Sys) {
    (s.hw.stop || s.hw.phase == Idle) && !s.hw.start ==> s.fifo == []
  }

  lemma PaidStep(s: Sys, step: Step, slave: Slave)
    requires Sane(s) && CanStep(s, step)
    ensures Paid(Stepped(s, step, slave)) >= Paid(s)
    ensures Drained(s) ==> Drained(Stepped(s, step, slave))
  {
    hide Pulled, Sadd, ReadBit, StartBit, StopBit, NBytes, Costs;
    if step.Hardware? {
      var t := Apply(s.hw, step.e, slave);
      if t.bus != s.hw.bus {
        CostsAppend(s.hw.bus, [t.bus[|s.hw.bus|]]);
        OneCost(t.bus[|s.hw.bus|]);
        assert t.bus == s.hw.bus + [t.bus[|s.hw.bus|]];
      }
    }
  }

  lemma OneCost(e: Event)
    ensures Costs([e]) == Cost(e)
  {
    assert [e][1..] == [];
  }

  lemma {:induction false} PaidRun(s: Sys, run: seq<Step>, slave: Slave)
    requires Sane(s) && Drained(s) && ValidRun(s, run, slave) && Stuck(Ran(s, run, slave))
    ensures Costs(Ran(s, run, slave).hw.bus) >= Paid(s)
    decreases run
  {
    hide Stuck, Costs, Paid, Drained;
    if run == [] {
      PaidAtRest(s);
    } else {
      SaneStep(s, run[0], slave);
      PaidStep(s, run[0], slave);
      hide Sane;
      PaidRun(Stepped(s, run[0], slave), run[1..], slave);
    }
  }

  lemma PaidAtRest(s: Sys)
    requires Sane(s) && Drained(s) && Stuck(s)
    ensures Costs(s.hw.bus) == Paid(s)
  {
    hide Costs;
    if s.hw.start || s.hw.phase != Idle {
      SaneMoves(s);
    }
    assert !CanStep(s, Enter) && !CanStep(s, Body);
  }
}
