/** quasar_i2c_write and quasar_i2c_read entered while a transfer runs, as a whole: when push, poll, pull, CR2 and START
    leave the bus as intended, stated on the bus that the engine shows in the end. */
module I2cLaunch {
  import opened Words
  import opened Ring
  import opened Fifo
  import opened I2cBus
  import opened I2cEngine
  import opened I2cDecode
  import opened I2cCalls
  import opened I2cOverlap
  import opened I2cHeaders
  import opened I2cBusFacts
  import opened I2cPull

  // The condition.

  /** With nothing queued behind it, a segment whose START is out is not followed by the call's. */
  lemma LastLaunch(t: Sys, q: Pos, n: Spot, c: Caller, run: seq<CallStep>, slave: Slave, full: Goal)
    requires AtPull(t, q, n, slave, full) && Launching(t, c, run, slave) && q.rest == []
    requires !t.hw.start || (!StopBit(Pulled(t.fifo)) && |CallRan(c, run, slave).sys.hw.bus| > |q.g.before|)
    ensures !Ends(CallRan(c, run, slave).sys, full.bus, slave)
  {
    SanePull(t, q, n, slave, full);
    LoadedStart(t);
    hide Pulled, StopBit, StartBit, Loaded, Sane, InTransfer, Plain;
    SaneLaunch(c, run, slave);
    assert Placed(q) && Aims(t.mem, q, slave, full) by {
      AimedAtPull(t, q, n, slave, full);
    }
    NothingFollows(CallRan(c, run, slave).sys, q, t.mem, slave, full);
  }

  lemma AimedAtPull(t: Sys, q: Pos, n: Spot, slave: Slave, full: Goal)
    requires AtPull(t, q, n, slave, full)
    ensures Placed(q) && Aims(t.mem, q, slave, full)
  {
  }

  /** A pull while a START is pending whose header, by what is pulled, addresses nothing: STOP goes first. */
  lemma StopPending(t: Sys, q: Pos, n: Spot, c: Caller, run: seq<CallStep>, slave: Slave, full: Goal)
    requires AtPull(t, q, n, slave, full) && Launching(t, c, run, slave)
    requires t.hw.start && StopBit(Pulled(t.fifo)) && t.hw.phase != Idle
    ensures !Ends(CallRan(c, run, slave).sys, full.bus, slave)
  {
    StartPending(t, q, n, slave, full);
    UnmovedShows(q, t.mem, slave, full);
    hide AtPull, Trace, Aims, Pulled, StopBit, Placed, Framed, Launching, Ends, Stream;
    assert full.bus[|q.g.before|] == q.g.open;
    StopLaunch(t, q, n, c, run, |q.g.before|, slave, full);
  }

  /** Every pull during a transfer. */
  lemma LaunchFrom(t: Sys, q: Pos, n: Spot, c: Caller, run: seq<CallStep>, slave: Slave, full: Goal)
    requires AtPull(t, q, n, slave, full) && Launching(t, c, run, slave) && (t.hw.phase == Idle ==> q.rest != [])
    ensures var u := CallRan(c, run, slave).sys;
            && (Ends(u, full.bus, slave) <==> InStep(t, q, u) || LastRead(t, q, u))
            && (InStep(t, q, u) && (q.cur.Recv? ==> q.moved == 1) ==> Heading(u, slave, full))
  {
    SanePull(t, q, n, slave, full);
    AimedAtPull(t, q, n, slave, full);
    var u := CallRan(c, run, slave).sys;
    if q.cur.Send? && q.rest != [] {
      hide AtPull, Launching, Ends, Heading, InStep, Sane, Pulled, Aims, Placed;
      EarlyLaunch(t, q, n, c, run, slave, full);
    } else if t.hw.start {
      PendingFrom(t, q, n, c, run, slave, full);
    } else if q.rest == [] {
      hide AtPull, Launching, Ends, Heading, Sane, Pulled, Aims, Placed;
      LastLaunch(t, q, n, c, run, slave, full);
    } else if q.moved == 1 {
      hide AtPull, Launching, Heading, Sane, Pulled, Aims, Placed;
      ReadDoneLaunch(t, q, n, c, run, slave, full);
      HeadingEnds(u, slave, full, full.bus);
    } else {
      hide AtPull, Launching, Heading, Sane, Pulled, Aims, Ends, InStep;
      if Ends(u, full.bus, slave) {
        ReadOnlyIf(t, q, n, c, run, slave, full);
      }
      if InStep(t, q, u) {
        ReadIf(t, q, n, c, run, slave, full);
      }
    }
  }

  lemma PendingFrom(t: Sys, q: Pos, n: Spot, c: Caller, run: seq<CallStep>, slave: Slave, full: Goal)
    requires AtPull(t, q, n, slave, full) && Launching(t, c, run, slave) && t.hw.phase != Idle && t.hw.start
    requires q.cur.Recv? || q.rest == []
    ensures var u := CallRan(c, run, slave).sys;
            !InStep(t, q, u) && (Ends(u, full.bus, slave) <==> LastRead(t, q, u))
  {
    var u := CallRan(c, run, slave).sys;
    assert !InStep(t, q, u) by {
      if InStep(t, q, u) {
        AtNext(t, q, n, slave, full);
      }
    }
    StartPending(t, q, n, slave, full);
    LoadedBus(t);
    hide AtPull, Ends, Pulled, Aims, Placed, Framed, StopBit, Requesting, Loaded, Stream, Calm, Sadd, ReadBit, NBytes;
    hide InStep;
    if StopBit(Pulled(t.fifo)) {
      StopPending(t, q, n, c, run, slave, full);
    } else {
      var out, d, rest := PendingLaunch(c, run, slave);
      if !out {
        SwallowedLaunch(t, q, n, slave, full);
      } else {
        OutShows(t, d, rest, slave);
        if q.rest == [] {
          LastLaunch(t, q, n, c, run, slave, full);
        } else {
          ReadTorn(t, q, n, c, run, slave, full);
        }
      }
    }
  }

  lemma AtNext(t: Sys, q: Pos, n: Spot, slave: Slave, full: Goal)
    requires AtPull(t, q, n, slave, full) && q.cur.Recv? && q.rest != []
    ensures q.rest[0].Send?
  {
    WriteFollows(q, n);
  }

  lemma OutShows(t: Sys, d: Caller, rest: seq<CallStep>, slave: Slave)
    requires Requesting(Loaded(t)) && t.hw.phase != Idle && d.pc == Starting && Sane(Loaded(t))
    requires d.sys == Stepped(Loaded(t), Hardware(Address), slave)
    requires ValidCall(d, rest, slave) && CallRan(d, rest, slave).pc == Returned(true)
    ensures |CallRan(d, rest, slave).sys.hw.bus| > |t.hw.bus|
  {
    SaneStep(Loaded(t), Hardware(Address), slave);
    OpeningSent(Loaded(t), slave);
    LoadedBus(t);
    hide Stepped, Sane, Loaded, Requesting;
    SaneLaunch(d, rest, slave);
  }

  lemma OpeningSent(s: Sys, slave: Slave)
    requires CanStep(s, Hardware(Address))
    ensures |Stepped(s, Hardware(Address), slave).hw.bus| == |s.hw.bus| + 1
  {
  }

  /** A call that comes too late: the transfer it should have been part of is over. */
  lemma LateLaunch(t: Sys, x: Xfer, c: Caller, run: seq<CallStep>, slave: Slave, goal: Goal)
    requires goal.bus != [] && Launching(t, c, run, slave)
    requires Ending(t, Further(goal, PlanOf(x), slave)) || Split(t, x, Further(goal, FirstSegs(x), slave))
    ensures !Ends(CallRan(c, run, slave).sys, Further(goal, PlanOf(x), slave).bus, slave)
  {
    var half, full := Further(goal, FirstSegs(x), slave), Further(goal, PlanOf(x), slave);
    var u := CallRan(c, run, slave).sys;
    LateBits(t, x, half, full);
    hide Further, FirstSegs, PlanOf, Split, Ending, Loaded, Sane, Stuck, Pulled, Calm;
    SaneLaunch(c, run, slave);
    if after :| ValidRun(u, after, slave) && Stuck(Ran(u, after, slave)) && Ran(u, after, slave).hw.bus == full.bus {
      if Ending(t, full) {
        LateEnding(t, full);
        assert Opens(u, |u.hw.bus|);
        OpensRun(u, after, |u.hw.bus|, slave);
      } else {
        SplitShows(t, x, slave, goal);
        if t.hw.phase == Idle {
          BusRun(u, after, slave);
        } else {
          StretchLaunch(c, run, |t.hw.bus|, |t.hw.bus|, true, slave);
          StretchRun(u, after, |t.hw.bus|, |t.hw.bus|, true, slave);
        }
      }
    }
  }

  lemma LateBits(t: Sys, x: Xfer, half: Goal, full: Goal)
    requires Ending(t, full) || Split(t, x, half)
    ensures Sane(Loaded(t)) && Loaded(t).hw.bus == t.hw.bus
    ensures t.hw.phase != Idle ==> Stretch(Loaded(t), |t.hw.bus|, |t.hw.bus|, true)
  {
    hide Pulled, StartBit, StopBit, SecondPart;
    EmptyPull();
    NoBits();
    if Split(t, x, half) {
      SecondPartBytes(x);
      PulledFields(SecondPart(x));
    }
  }

  lemma NoBits()
    ensures !StartBit(0) && !StopBit(0)
  {
  }

  lemma LateEnding(t: Sys, full: Goal)
    requires Ending(t, full)
    ensures forall j :: |t.hw.bus| <= j < |full.bus| ==> full.bus[j] == Stop
  {
  }

  lemma ReadTrace(x: Xfer, slave: Slave, k: nat)
    requires x.ReadReg?
    ensures Trace(PlanOf(x), slave, k, false)
         == [Restart(x.dev, false), Tx(x.reg), Restart(x.dev, true)] + [Rx(slave(k))]
    ensures Trace(FirstSegs(x), slave, k, false) == [Restart(x.dev, false), Tx(x.reg)]
  {
    var first, second := [Send(x.dev, [x.reg])], [Recv(x.dev, x.ptr)];
    SentOne(x.reg);
    assert first[1..] == [] && second[1..] == [] && PlanOf(x)[1..] == second;
    assert Trace(second, slave, k, false) == [Restart(x.dev, true)] + [Rx(slave(k))] + [];
    assert Trace(first, slave, k, false) == [Restart(x.dev, false)] + [Tx(x.reg)] + [];
  }

  /** A split read: where the bus shows STOP, the second half of the read should begin. */
  lemma SplitShows(t: Sys, x: Xfer, slave: Slave, goal: Goal)
    requires goal.bus != [] && Split(t, x, Further(goal, FirstSegs(x), slave))
    ensures var full, h := Further(goal, PlanOf(x), slave).bus, t.hw;
            if h.phase == Idle then h.bus != [] && |h.bus| <= |full| && full[|h.bus| - 1] != h.bus[|h.bus| - 1]
            else |h.bus| < |full| && full[|h.bus|] != Stop
  {
    var half, full := Further(goal, FirstSegs(x), slave), Further(goal, PlanOf(x), slave);
    var front := goal.bus[..|goal.bus| - 1];
    ReadTrace(x, slave, goal.heard);
    hide Trace;
    assert full.bus == front + [Restart(x.dev, false), Tx(x.reg), Restart(x.dev, true), Rx(slave(goal.heard)), Stop];
    assert half.bus == front + [Restart(x.dev, false), Tx(x.reg), Stop];
  }

  /** At the pull the transfer stands so that the call's START belongs where it goes. */
  ghost predicate Timely(t: Sys, u: Sys, slave: Slave, full: Goal) {
    exists q, n :: InTransfer(t, q, n, slave, full) && Plain(n) && (InStep(t, q, u) || LastRead(t, q, u))
  }

  /** The launch of a call: it starts with the pull and ends with START. */
  ghost predicate IsLaunch(t: Caller, launch: seq<CallStep>, slave: Slave) {
    && t.pc == Loading && ValidCall(t, launch, slave) && launch != [] && launch[0] == Thread
    && CallRan(t, launch, slave).pc == Returned(true)
  }

  /** When a call that overlaps a transfer does what was intended: for every transfer, transaction and interleaving up
      to the pull, and every one from there to START in which the handler serves no TC, some run of the engine ends with
      the running transfer and then the call's own transaction on the bus if and only if the call is timely. */
  lemma {:induction false} LaunchIff(s: Sys, p: Pos, spot: Spot, slave: Slave, goal: Goal, x: Xfer,
                                     run: seq<CallStep>, launch: seq<CallStep>)
    requires InTransfer(s, p, spot, slave, goal) && Plain(spot) && Fits(s.fifo, x)
    requires ValidCall(Caller(s, x, First), run, slave)
    requires var t := CallRan(Caller(s, x, First), run, slave); IsLaunch(t, launch, slave) && Calm(t, launch, slave)
    ensures goal.bus != []
    ensures var t, full := CallRan(Caller(s, x, First), run, slave), Further(goal, PlanOf(x), slave);
            var u := CallRan(t, launch, slave).sys;
            Ends(u, full.bus, slave) <==> Timely(t.sys, u, slave, full)
  {
    GoalHasStop(s, p, slave, goal);
    hide Further, FirstSegs, PlanOf, Fits, InTransfer, Plain, Ends, Timely, Calm, Pushed;
    var t := CallRan(Caller(s, x, First), run, slave);
    var q, n := OverlapStages(s, p, spot, slave, goal, x, run);
    assert t.x == x by {
      SameCall(Caller(s, x, First), run, slave);
    }
    PushedLaunch(t, launch, q, n, slave, goal);
  }

  lemma {:induction false} SameCall(c: Caller, run: seq<CallStep>, slave: Slave)
    requires ValidCall(c, run, slave)
    ensures CallRan(c, run, slave).x == c.x
    decreases run
  {
    hide Stepped, CanStep;
    if run != [] {
      SameCall(Called(c, run[0], slave), run[1..], slave);
    }
  }

  lemma PushedLaunch(t: Caller, launch: seq<CallStep>, q: Pos, n: Spot, slave: Slave, goal: Goal)
    requires goal.bus != [] && IsLaunch(t, launch, slave) && Calm(t, launch, slave)
    requires Pushed(t.sys, t.x, q, n, slave, Further(goal, FirstSegs(t.x), slave), Further(goal, PlanOf(t.x), slave))
    ensures var full, u := Further(goal, PlanOf(t.x), slave), CallRan(t, launch, slave).sys;
            Ends(u, full.bus, slave) <==> Timely(t.sys, u, slave, full)
  {
    hide Further, FirstSegs, PlanOf, Split, Ending, InTransfer, Plain, Ends, At;
    var full, c, u := Further(goal, PlanOf(t.x), slave), ThreadStep(t), CallRan(t, launch, slave).sys;
    LaunchSplits(t, launch, slave);
    if InTransfer(t.sys, q, n, slave, full) && Plain(n) && (t.sys.hw.phase == Idle ==> n.zs != []) {
      MoreBehind(t.sys, q, n, slave, full);
      LaunchFrom(t.sys, q, n, c, launch[1..], slave, full);
    } else {
      LateLaunch(t.sys, t.x, c, launch[1..], slave, goal);
    }
    if r, m :| InTransfer(t.sys, r, m, slave, full) && Plain(m) && (InStep(t.sys, r, u) || LastRead(t.sys, r, u)) {
      SanePull(t.sys, r, m, slave, full);
      LaunchFrom(t.sys, r, m, c, launch[1..], slave, full);
    }
  }

  lemma LaunchSplits(t: Caller, launch: seq<CallStep>, slave: Slave)
    requires IsLaunch(t, launch, slave) && Calm(t, launch, slave)
    ensures Launching(t.sys, ThreadStep(t), launch[1..], slave) && t.sys.isr.None?
    ensures CallRan(t, launch, slave) == CallRan(ThreadStep(t), launch[1..], slave)
  {
    hide Loaded;
  }

  /** And in step, every run leads there, with everything read where it belongs; unless the call has pulled the pointer
      of a read, whose byte then goes elsewhere. */
  lemma LaunchRuns(t: Caller, launch: seq<CallStep>, q: Pos, n: Spot, slave: Slave, full: Goal, after: seq<Step>)
    requires InTransfer(t.sys, q, n, slave, full) && Plain(n)
    requires IsLaunch(t, launch, slave) && Calm(t, launch, slave)
    requires var u := CallRan(t, launch, slave).sys; InStep(t.sys, q, u) && ValidRun(u, after, slave)
    requires q.cur.Recv? ==> q.moved == 1
    ensures var u := CallRan(t, launch, slave).sys;
            var e := Ran(u, after, slave);
            && |after| + Work(e) <= Work(u) && e.hw.bus <= full.bus
            && (Stuck(e) ==> Ending(e, full) && e.hw.phase == Idle)
  {
    hide InTransfer, Plain, Ends, Heading, InStep, Stuck, Ran, ValidRun, Ending, Work;
    LaunchSplits(t, launch, slave);
    assert q.rest != [] by {
      InStepGoesOn(t.sys, q, CallRan(t, launch, slave).sys);
    }
    LaunchFrom(t.sys, q, n, ThreadStep(t), launch[1..], slave, full);
    HeadingRun(CallRan(t, launch, slave).sys, after, slave, full);
  }

  lemma InStepGoesOn(t: Sys, q: Pos, u: Sys)
    requires InStep(t, q, u)
    ensures q.rest != []
  {
  }

  lemma MoreBehind(t: Sys, q: Pos, n: Spot, slave: Slave, full: Goal)
    requires InTransfer(t, q, n, slave, full) && Plain(n)
    ensures t.hw.phase == Idle && n.zs != [] ==> q.rest != []
  {
    if n.zs != [] {
      PlanSplit(n.zs, []);
    }
  }

  // A handler entry that serves TC between the pull and START.

  /** Segment g is on the bus, a read with its byte stored, and queue will be left at its TC. */
  ghost predicate BeforeTc(s: Sys, g: Segment, loaded: seq<byte>, taken: nat, slave: Slave, goal: Goal) {
    && Decoding(s, g, loaded, taken, slave, goal) && !s.hw.start
    && if g.Reads() then taken == g.n && s.fifo != [] else |s.fifo| > g.n - |loaded|
  }

  /** TC has been served: a START, or a STOP and a START, is on its way. */
  ghost predicate TcServed(s: Sys, b: nat, slave: Slave, goal: Goal) {
    && Heading(s, slave, goal) && Sane(s) && s.hw.start && s.hw.left == 0 && s.hw.txdr.None? && !s.hw.Flagged()
    && s.isr.None? && |s.hw.bus| == b
  }

  lemma BeforeTcStep(s: Sys, step: Step, g: Segment, loaded: seq<byte>, taken: nat, slave: Slave, goal: Goal)
    returns (more: seq<byte>)
    requires BeforeTc(s, g, loaded, taken, slave, goal) && CanStep(s, step)
    ensures var t := Stepped(s, step, slave);
            if step.Body? && s.isr.value.tc then TcServed(t, |g.before| + 1 + g.n, slave, goal)
            else BeforeTc(t, g, more, taken, slave, goal)
  {
    more := loaded;
    match step
    case Hardware(e) => DecodingHardware(s, e, g, loaded, taken, slave, goal);
    case Enter => DecodingEnter(s, g, loaded, taken, slave, goal);
    case Body =>
      if s.isr.value.tc {
        DecodingIsSane(s, g, loaded, taken, slave, goal);
        SaneStep(s, Body, slave);
        DecodingBody(s, g, loaded, taken, slave, goal);
        TcBody(s, g, loaded, taken, slave, goal);
      } else {
        more := loaded + [Head(s.fifo)];
        BeforeTcLoad(s, g, loaded, taken, slave, goal);
      }
  }

  lemma DecodingIsSane(s: Sys, g: Segment, loaded: seq<byte>, taken: nat, slave: Slave, goal: Goal)
    requires Decoding(s, g, loaded, taken, slave, goal)
    ensures Sane(s)
  {
    hide Reached;
  }

  lemma BeforeTcLoad(s: Sys, g: Segment, loaded: seq<byte>, taken: nat, slave: Slave, goal: Goal)
    requires BeforeTc(s, g, loaded, taken, slave, goal) && s.isr.Some? && !s.isr.value.tc
    ensures BeforeTc(Stepped(s, Body, slave), g, loaded + [Head(s.fifo)], taken, slave, goal)
  {
    assert s.isr.value == Status(true, false, false) by {
      hide Reached;
    }
    DecodingLoad(s, g, loaded, taken, slave, goal);
    hide Reached, Pulled;
  }

  lemma TcBody(s: Sys, g: Segment, loaded: seq<byte>, taken: nat, slave: Slave, goal: Goal)
    requires BeforeTc(s, g, loaded, taken, slave, goal) && s.isr.Some? && s.isr.value.tc
    ensures s.isr.value == Status(false, false, true) && Stepped(s, Body, slave) == StopOrChain(s).(isr := None)
    ensures var h := StopOrChain(s).hw;
            h.start && h.left == 0 && h.txdr.None? && !h.Flagged() && |h.bus| == |g.before| + 1 + g.n
  {
    hide Reached, Pulled, StartBit, StopBit;
  }

  lemma {:induction false} TcServedLaunch(c: Caller, run: seq<CallStep>, b: nat, slave: Slave, goal: Goal)
    requires c.pc == Starting && ValidCall(c, run, slave) && CallRan(c, run, slave).pc == Returned(true)
    requires TcServed(c.sys, b, slave, goal)
    ensures var u := CallRan(c, run, slave).sys; |u.hw.bus| > b || Heading(u, slave, goal)
    decreases run
  {
    var d := Called(c, run[0], slave);
    if run[0].Engine? {
      SaneStep(c.sys, run[0].step, slave);
      BusAdvances(c.sys, run[0].step, slave);
      hide Heading, Sane, Stepped, CanStep;
      SaneLaunch(d, run[1..], slave);
    } else {
      assert d.pc == Returned(true);
      assert run[1..] == [] && d.sys == c.sys;
    }
  }

  lemma BusAdvances(s: Sys, step: Step, slave: Slave)
    requires s.isr.None? && !s.hw.Flagged() && s.hw.left == 0 && s.hw.start && CanStep(s, step)
    ensures |Stepped(s, step, slave).hw.bus| > |s.hw.bus|
  {
  }

  lemma {:induction false} BeforeTcLaunch(c: Caller, run: seq<CallStep>, g: Segment, loaded: seq<byte>, taken: nat,
                                          slave: Slave, goal: Goal)
    requires c.pc == Starting && ValidCall(c, run, slave) && CallRan(c, run, slave).pc == Returned(true)
    requires BeforeTc(c.sys, g, loaded, taken, slave, goal) && !Calm(c, run, slave)
    ensures var u := CallRan(c, run, slave).sys; |u.hw.bus| > |g.before| + 1 + g.n || Heading(u, slave, goal)
    decreases run
  {
    hide BeforeTc, TcServed, Heading, Stepped, Enabled;
    var d := Called(c, run[0], slave);
    if run[0].Engine? {
      var more := BeforeTcStep(c.sys, run[0].step, g, loaded, taken, slave, goal);
      if run[0].step.Body? && c.sys.isr.value.tc {
        TcServedLaunch(d, run[1..], |g.before| + 1 + g.n, slave, goal);
      } else {
        BeforeTcLaunch(d, run[1..], g, more, taken, slave, goal);
      }
    }
  }

  /** A pull during a segment whose START is out, but not of the pointer that a read still needs. */
  predicate Underway(t: Sys, q: Pos) {
    !t.hw.start && q.rest != [] && (q.cur.Recv? ==> q.moved == 1)
  }

  /** Where the engine goes when TC is served after the pull. */
  function Overtaken(t: Sys, q: Pos, slave: Slave): Goal
    requires Placed(q)
  {
    if q.cur.Send? then Reached(q.g, q.cur.bytes[..q.moved], 0, Rest(t.fifo, 4), None, t.mem, slave)
    else Reached(q.g, [], q.moved, Rest(t.fifo, 4), None, t.mem, slave)
  }

  /** A call that is overtaken by the handler, which serves TC between the pull and START and whose own START is still
      pending then: the header pulled is lost, and the bus is as intended if and only if all that is left is a read
      whose pointer passes for its header, and what the segment on the bus still needed was repeated. */
  lemma TcFirst(t: Caller, launch: seq<CallStep>, q: Pos, n: Spot, slave: Slave, full: Goal)
    requires InTransfer(t.sys, q, n, slave, full) && Plain(n) && Underway(t.sys, q)
    requires IsLaunch(t, launch, slave) && !Calm(t, launch, slave)
    requires |CallRan(t, launch, slave).sys.hw.bus| <= |q.g.before| + 1 + q.cur.Units()
    ensures Placed(q)
    ensures var u, next := CallRan(t, launch, slave).sys, q.rest[0];
            && Heading(u, slave, Overtaken(t.sys, q, slave))
            && (Ends(u, full.bus, slave) <==>
                  next.Recv? && q.rest == [next] && Addresses(next.ptr, next) && Needed(q) <= Rest(t.sys.fifo, 4))
  {
    var u := CallRan(t, launch, slave).sys;
    hide Active, Ends, Heading, Overtaken, BeforeTc, At, Stepped, Addresses, Loaded, Needed, Rest, Pulled, Placed;
    LaunchTail(t, launch, slave);
    var loaded, taken := if q.cur.Send? then q.cur.bytes[..q.moved] else [], if q.cur.Send? then 0 else q.moved;
    LoadedBeforeTc(t.sys, q, n, slave, full, loaded, taken);
    BeforeTcLaunch(ThreadStep(t), launch[1..], q.g, loaded, taken, slave, Overtaken(t.sys, q, slave));
    HeadingEnds(u, slave, Overtaken(t.sys, q, slave), full.bus);
    if q.cur.Send? {
      OvertakenSend(t.sys, q, n, slave, full);
    } else {
      OvertakenRead(t.sys, q, n, slave, full);
    }
  }

  lemma LaunchTail(t: Caller, launch: seq<CallStep>, slave: Slave)
    requires IsLaunch(t, launch, slave)
    ensures var c := ThreadStep(t);
            && c.pc == Starting && c.sys == Loaded(t.sys) && t.sys.isr.None? && ValidCall(c, launch[1..], slave)
            && CallRan(c, launch[1..], slave) == CallRan(t, launch, slave)
            && (Calm(t, launch, slave) <==> Calm(c, launch[1..], slave))
  {
    hide Loaded;
  }

  lemma LoadedBeforeTc(t: Sys, q: Pos, n: Spot, slave: Slave, full: Goal, loaded: seq<byte>, taken: nat)
    requires AtPull(t, q, n, slave, full) && Underway(t, q)
    requires q.moved <= q.cur.Units()
    requires loaded == (if q.cur.Send? then q.cur.bytes[..q.moved] else [])
    requires taken == (if q.cur.Send? then 0 else q.moved)
    ensures Placed(q) && BeforeTc(Loaded(t), q.g, loaded, taken, slave, Overtaken(t, q, slave))
    ensures q.g.n == q.cur.Units()
  {
    if q.cur.Send? {
      SendBeforeTc(t, q, n, slave, full);
    } else {
      ReadBeforeTc(t, q, n, slave, full);
    }
  }

  lemma SendBeforeTc(t: Sys, q: Pos, n: Spot, slave: Slave, full: Goal)
    requires AtPull(t, q, n, slave, full) && Underway(t, q) && q.cur.Send?
    ensures Placed(q) && q.g.n == q.cur.Units()
    ensures BeforeTc(Loaded(t), q.g, q.cur.bytes[..q.moved], 0, slave, Overtaken(t, q, slave))
  {
    hide Pulled, StartBit, StopBit, ReadBit, Reached, Framed, Aims, Stream, Plan;
    PulledInside(t, q, n, slave, full);
    SendsOnly(q);
    QueueLeft(t, q, n, slave, full);
    hide At;
  }

  lemma ReadBeforeTc(t: Sys, q: Pos, n: Spot, slave: Slave, full: Goal)
    requires AtPull(t, q, n, slave, full) && Underway(t, q) && q.cur.Recv?
    ensures Placed(q) && q.g.n == q.cur.Units()
    ensures BeforeTc(Loaded(t), q.g, [], q.moved, slave, Overtaken(t, q, slave))
  {
    hide Pulled, StartBit, StopBit, Reached, Framed, Aims, Stream, Plan;
    AtEndFifo(t, q, n, slave, full);
    hide At;
  }

  lemma QueueLeft(t: Sys, q: Pos, n: Spot, slave: Slave, full: Goal)
    requires AtPull(t, q, n, slave, full) && q.cur.Send? && q.rest != []
    ensures |Rest(t.fifo, 4)| > |Needed(q)|
  {
    NextHeader(q, n);
    LongEnough(q, t.fifo);
    StreamCons(q.rest);
    hide Active, At, Queued, Cr2, Stream;
  }

  lemma AtEndFifo(t: Sys, q: Pos, n: Spot, slave: Slave, full: Goal)
    requires AtPull(t, q, n, slave, full) && AtSegmentEnd(q)
    ensures var w := Pulled(t.fifo);
            && !StartBit(w) && !StopBit(w) && t.fifo == Stream(q.rest)
            && Rest(t.fifo, 4) == q.rest[0].Payload() + Stream(q.rest[1..]) && Rest(t.fifo, 4) != []
            && Placed(q) && OnBus(t.hw, q, slave) && Aims(t.mem, q, slave, full) && t.isr.None?
  {
    NextHeader(q, n);
    FollowingFramed(t.fifo, q, slave);
    hide Pulled, StartBit, StopBit, Aims, Following, Cr2, Queued, Plan, OnBus, Sadd, NBytes, ReadBit;
    StreamCons(q.rest);
  }

  lemma OvertakenRead(t: Sys, q: Pos, n: Spot, slave: Slave, full: Goal)
    requires AtPull(t, q, n, slave, full) && Underway(t, q) && q.cur.Recv?
    ensures Placed(q)
    ensures var next := q.rest[0];
            Overtaken(t, q, slave).bus == full.bus
            <==> next.Recv? && q.rest == [next] && Addresses(next.ptr, next) && Needed(q) <= Rest(t.fifo, 4)
  {
    hide Active, At, Decoded, Trace, Serves, Pulled, Addresses, Aims, OnBus, StartBit, StopBit, Stream, Overtaken;
    hide Queued;
    hide Placed, Loaded, Rest;
    AtEndFifo(t, q, n, slave, full);
    OvertakenShows(t, q, slave, full);
    SwallowedNext(q, n, t.mem, slave, q.g.k + 1);
    AloneServes(q.rest);
  }

  lemma OvertakenSend(t: Sys, q: Pos, n: Spot, slave: Slave, full: Goal)
    requires AtPull(t, q, n, slave, full) && Underway(t, q) && q.cur.Send?
    ensures Placed(q)
    ensures var next := q.rest[0];
            Overtaken(t, q, slave).bus == full.bus
            <==> next.Recv? && q.rest == [next] && Addresses(next.ptr, next) && Needed(q) <= Rest(t.fifo, 4)
  {
    hide Active, At, Decoded, Trace, Serves, Pulled, Addresses, Aims, StartBit, StopBit, ReadBit, Stream, Overtaken;
    hide Queued;
    hide Loaded, Framed;
    PulledInside(t, q, n, slave, full);
    QueueLeft(t, q, n, slave, full);
    OvertakenTail(t, q, slave, full);
    if Needed(q) <= Rest(t.fifo, 4) {
      EchoLeaves(q, t.fifo);
      SwallowedNext(q, n, t.mem, slave, q.g.k);
      AloneServes(q.rest);
    }
  }

  lemma OvertakenTail(t: Sys, q: Pos, slave: Slave, full: Goal)
    requires Placed(q) && Aims(t.mem, q, slave, full) && q.cur.Send? && q.rest != [] && !q.g.Reads()
    requires |Rest(t.fifo, 4)| > |Needed(q)|
    ensures var next, f := q.rest[0], Rest(t.fifo, 4);
            var more := Trace(q.rest[1..], slave, q.g.k + next.Heard(), false) + [Stop];
            Overtaken(t, q, slave).bus == full.bus
            <==> Needed(q) <= f && Serves(Rest(f, |Needed(q)|), next, more, t.mem, slave, q.g.k)
  {
    hide Decoded, Trace, Serves, Aims, Overtaken, Needed, Sent, Padded;
    var next, f, d, k := q.rest[0], Rest(t.fifo, 4), Needed(q), q.g.k;
    var more := Trace(q.rest[1..], slave, k + next.Heard(), false) + [Stop];
    var r, shown := Rest(f, |d|), q.g.before + [q.g.open] + Sent(q.cur.bytes[..q.moved]);
    var e, tail := Decoded(r, t.mem, slave, k).events, [Restart(next.dev, next.Recv?)] + (next.Data(slave, k) + more);
    IntendedShows(q, t.mem, slave, full);
    OvertakenBus(t, q, slave);
    SamePadded(f, d);
    if shown + (Sent(Padded(f, |d|)) + e) == shown + (Sent(d) + tail) {
      SameRest(shown, Sent(Padded(f, |d|)) + e, shown, Sent(d) + tail);
      SameRest(Sent(Padded(f, |d|)), e, Sent(d), tail);
    }
    DecodedServes(r, next, more, t.mem, slave, k);
  }

  lemma OvertakenBus(t: Sys, q: Pos, slave: Slave)
    requires Placed(q)
    ensures var f, d, k := Rest(t.fifo, 4), Needed(q), q.g.k;
            q.cur.Send? && !q.g.Reads() ==>
              Overtaken(t, q, slave).bus
              == q.g.before + [q.g.open] + Sent(q.cur.bytes[..q.moved])
                 + (Sent(Padded(f, |d|)) + Decoded(Rest(f, |d|), t.mem, slave, k).events)
    ensures q.cur.Recv? && q.moved == 1 ==>
              Overtaken(t, q, slave).bus
              == q.g.before + [q.g.open] + Received(slave, q.g.k, 1)
                 + Decoded(Rest(t.fifo, 4), t.mem, slave, q.g.k + 1).events
  {
    hide Decoded, Padded;
    if q.cur.Send? {
      SegmentedSends(|Needed(q)|, Rest(t.fifo, 4), None, t.mem, slave, q.g.k);
    }
  }

  lemma OvertakenShows(t: Sys, q: Pos, slave: Slave, full: Goal)
    requires Placed(q) && Aims(t.mem, q, slave, full) && q.rest != [] && Rest(t.fifo, 4) != []
    requires q.cur.Recv? && q.moved == 1
    ensures var next, k := q.rest[0], q.g.k + 1;
            Overtaken(t, q, slave).bus == full.bus
            <==> Serves(Rest(t.fifo, 4), next, Trace(q.rest[1..], slave, k + next.Heard(), false) + [Stop],
                        t.mem, slave, k)
  {
    hide Decoded, Trace, Serves, Aims, Overtaken, Needed;
    var next, k, f := q.rest[0], q.g.k + 1, Rest(t.fifo, 4);
    var more := Trace(q.rest[1..], slave, k + next.Heard(), false) + [Stop];
    EndShows(q, t.mem, slave, full);
    OvertakenBus(t, q, slave);
    DecodedServes(f, next, more, t.mem, slave, k);
    assert Received(slave, q.g.k, 1) == [Rx(slave(q.g.k))];
    var shown := q.g.before + [q.g.open] + q.cur.Data(slave, q.g.k);
    var e := Decoded(f, t.mem, slave, k).events;
    if shown + e == full.bus {
      SameRest(shown, e, shown, [Restart(next.dev, next.Recv?)] + (next.Data(slave, k) + more));
    }
  }

  lemma SwallowedNext(q: Pos, n: Spot, mem: Memory, slave: Slave, k: nat)
    requires At(q, n) && Plain(n) && q.rest != []
    ensures var next := q.rest[0];
            var f := next.Payload() + Stream(q.rest[1..]);
            Serves(f, next, Trace(q.rest[1..], slave, k + next.Heard(), false) + [Stop], mem, slave, k)
            <==> next.Recv? && q.rest[1..] == [] && Addresses(Pulled(f), next)
  {
    hide Trace, Serves, Pulled, Addresses, Stream, At;
    var p := Following(q, slave);
    assert p.cur == q.rest[0] && p.rest == q.rest[1..];
    var m := SpotFollows(q, p, n, WriteReg(0, 0, 0));
    SwallowedIff(p, m, mem, slave, k);
  }

  lemma AloneServes(segs: seq<Seg>)
    requires segs != []
    ensures segs[1..] == [] <==> segs == [segs[0]]
    ensures segs[0].Recv? && segs[1..] == [] ==> Pulled(segs[0].Payload() + Stream(segs[1..])) == segs[0].ptr
  {
    hide Assembled, Queued;
    if segs[0].Recv? {
      PulledWord(segs[0].ptr, []);
    }
  }

  /** What the goal looks like from the end of a segment on. */
  lemma EndShows(q: Pos, mem: Memory, slave: Slave, full: Goal)
    requires Aims(mem, q, slave, full) && q.rest != []
    ensures var next, k := q.rest[0], q.g.k + q.cur.Heard();
            full.bus == q.g.before + [q.g.open] + q.cur.Data(slave, q.g.k)
                        + ([Restart(next.dev, next.Recv?)]
                           + (next.Data(slave, k) + (Trace(q.rest[1..], slave, k + next.Heard(), false) + [Stop])))
  {
    var next, k := q.rest[0], q.g.k + q.cur.Heard();
    AimsBus(mem, q, slave, full);
    assert q.rest == [next] + q.rest[1..];
    TraceCons(next, q.rest[1..], slave, k, false);
    hide Trace, Aims;
    Closes(q.g.before + [q.g.open] + q.cur.Data(slave, q.g.k), [Restart(next.dev, next.Recv?)], next.Data(slave, k),
           Trace(q.rest[1..], slave, k + next.Heard(), false), [Stop]);
  }

  lemma Closes<T>(a: seq<T>, b: seq<T>, c: seq<T>, d: seq<T>, e: seq<T>)
    ensures a + (b + c + d) + e == a + (b + (c + (d + e)))
  {
  }

  /** What being in step comes to: the segment has all its bytes; or it is a write of 0 and k, none of them moved yet,
      before a segment of k bytes to address k; or it is a read whose pointer addresses the next segment. */
  lemma StepForms(t: Sys, q: Pos, n: Spot, slave: Slave, full: Goal)
    requires AtPull(t, q, n, slave, full) && q.rest != []
    ensures var next := q.rest[0];
            Addresses(Pulled(t.fifo), next) && Needed(q) <= Rest(t.fifo, 4)
            <==> || q.moved == q.cur.Units()
                 || (q.cur.Recv? && Addresses(q.cur.ptr, next))
                 || (q.cur.Send? && q.moved == 0 && q.cur.bytes == [0, next.dev] && next.Send?
                     && next.dev == next.Units())
  {
    hide Addresses, Pulled, Aims, OnBus, Stream, Plan, Queued, Cr2;
    StreamCons(q.rest);
    if q.moved == q.cur.Units() {
      AtEndFifo(t, q, n, slave, full);
      EndInStep(q, t.fifo);
    } else if q.cur.Recv? {
      PulledWord(q.cur.ptr, Stream(q.rest));
    } else {
      LongEnough(q, t.fifo);
      EarlyForms(q, n, t.fifo);
    }
  }

  lemma EndInStep(q: Pos, f: seq<byte>)
    requires Placed(q) && q.moved == q.cur.Units() && q.rest != [] && f == Stream(q.rest)
    ensures Addresses(Pulled(f), q.rest[0]) && Needed(q) == []
  {
    hide Queued, Cr2, Assembled, Sadd, ReadBit, NBytes, StartBit, StopBit;
    HeaderIsHeader(q.rest[0]);
    PulledHeader(q.rest[0].Header(), q.rest[0].Payload(), Stream(q.rest[1..]));
  }

  lemma EarlyForms(q: Pos, n: Spot, f: seq<byte>)
    requires At(q, n) && Plain(n) && q.cur.Send? && q.rest != [] && q.moved < q.cur.Units()
    requires f == Needed(q) + Stream(q.rest)
    ensures var next := q.rest[0];
            Addresses(Pulled(f), next) && Needed(q) <= Rest(f, 4)
            <==> q.moved == 0 && q.cur.bytes == [0, next.dev] && next.Send? && next.dev == next.Units()
  {
    EarlyBytes(q, n, f);
    PulledFields(f);
    hide Pulled, Stream, Needed, Sadd, ReadBit, NBytes, StartBit, StopBit, At, Rest;
    if |q.cur.bytes| == 2 {
      assert q.cur.bytes == [q.cur.bytes[0], q.cur.bytes[1]];
    }
  }

  /** The bytes around the next header. */
  lemma EarlyBytes(q: Pos, n: Spot, f: seq<byte>)
    requires At(q, n) && Plain(n) && q.cur.Send? && q.rest != [] && q.moved < q.cur.Units()
    requires f == Needed(q) + Stream(q.rest)
    ensures var next := q.rest[0];
            && 1 <= next.Units() <= 2 && |f| >= 5
            && (|q.cur.bytes| != 2 || q.moved != 0 ==> f[1] == 0 && f[2] == next.Units())
            && (|q.cur.bytes| == 2 && q.moved == 0 ==>
                  && next.Send? && |f| >= 6 && f[1] == q.cur.bytes[1] && f[2] == 0 && f[3] == next.Units()
                  && (Needed(q) <= Rest(f, 4) <==> q.cur.bytes[0] == 0 && q.cur.bytes[1] == next.dev))
  {
    NextHeader(q, n);
    StreamCons(q.rest);
    NextIsSend(q, n);
    var next, d := q.rest[0], Needed(q);
    hide Queued, Cr2, Stream, Plan, At;
    assert f == d + (Queued(next.Header()) + (next.Payload() + Stream(q.rest[1..])));
    if |d| == 2 {
      assert Rest(f, 4)[0] == 0 && Rest(f, 4)[1] == next.dev;
    }
  }

  lemma NextIsSend(q: Pos, n: Spot)
    requires At(q, n) && Plain(n) && q.cur.Send? && q.rest != []
    ensures 1 <= |q.cur.bytes| <= 2 && (|q.cur.bytes| == 2 ==> q.rest[0].Send?)
  {
    NoPlan(map[], k => 0, 0);
    if n.zs != [] {
      PlanSplit(n.zs, []);
    }
  }

  /** What a call puts on the bus that pulls its header inside a sending segment, in every case. */
  lemma EarlyOutcome(t: Caller, launch: seq<CallStep>, q: Pos, n: Spot, slave: Slave, full: Goal, after: seq<Step>)
    requires InTransfer(t.sys, q, n, slave, full) && Plain(n) && q.cur.Send? && q.rest != []
    requires IsLaunch(t, launch, slave) && Calm(t, launch, slave)
    requires ValidRun(CallRan(t, launch, slave).sys, after, slave)
    ensures Placed(q)
    ensures var u := CallRan(t, launch, slave).sys;
            var e, goal := Ran(u, after, slave), EarlyGoal(t.sys, u, q, slave);
            && |after| + Work(e) <= Work(u) && e.hw.bus <= goal.bus
            && (Stuck(e) ==> Ending(e, goal) && e.hw.phase == Idle)
  {
    hide InTransfer, Plain, Heading, Stuck, Ran, ValidRun, Ending, Work, EarlyGoal, Calm, Loaded;
    LaunchSplits(t, launch, slave);
    EarlyHeads(t.sys, q, n, ThreadStep(t), launch[1..], slave, full);
    var u := CallRan(t, launch, slave).sys;
    HeadingRun(u, after, slave, EarlyGoal(t.sys, u, q, slave));
  }

  // Timely pulls exist.

  lemma Prepended(c: Caller, step: CallStep, rest: seq<CallStep>, slave: Slave)
    requires CanCall(c, step) && ValidCall(Called(c, step, slave), rest, slave)
    ensures ValidCall(c, [step] + rest, slave)
    ensures CallRan(c, [step] + rest, slave) == CallRan(Called(c, step, slave), rest, slave)
  {
    hide CanCall, Called;
    assert ([step] + rest)[1..] == rest;
  }

  lemma NoRun(c: Caller, slave: Slave)
    ensures ValidCall(c, [], slave) && CallRan(c, [], slave) == c
  {
  }

  /** A byte of a segment on its way from the queue to TXDR. */
  lemma OneByte(c: Caller, b: byte, rest: seq<CallStep>, slave: Slave)
    requires c.pc == Loading && c.sys.isr.None? && c.sys.fifo != [] && c.sys.fifo[0] == b
    requires var h := c.sys.hw; h.phase == Sending && h.left > 0 && h.txdr.None? && !h.Flagged()
    requires var d := c.(sys := c.sys.(fifo := c.sys.fifo[1..], hw := c.sys.hw.(txdr := Some(b))));
             ValidCall(d, rest, slave)
    ensures var steps := [Engine(Hardware(Request)), Engine(Enter), Engine(Body)] + rest;
            && ValidCall(c, steps, slave)
            && CallRan(c, steps, slave)
               == CallRan(c.(sys := c.sys.(fifo := c.sys.fifo[1..], hw := c.sys.hw.(txdr := Some(b)))), rest, slave)
  {
    hide ValidCall, CallRan;
    var c1 := Called(c, Engine(Hardware(Request)), slave);
    var c2 := Called(c1, Engine(Enter), slave);
    assert c2.sys.isr == Some(Status(true, false, false));
    assert Called(c2, Engine(Body), slave)
        == c.(sys := c.sys.(fifo := c.sys.fifo[1..], hw := c.sys.hw.(txdr := Some(b))));
    Prepended(c2, Engine(Body), rest, slave);
    Prepended(c1, Engine(Enter), [Engine(Body)] + rest, slave);
    assert [Engine(Enter)] + ([Engine(Body)] + rest) == [Engine(Enter), Engine(Body)] + rest;
    Prepended(c, Engine(Hardware(Request)), [Engine(Enter), Engine(Body)] + rest, slave);
    assert [Engine(Hardware(Request))] + ([Engine(Enter), Engine(Body)] + rest)
        == [Engine(Hardware(Request)), Engine(Enter), Engine(Body)] + rest;
  }

  /** Both bytes of a write. */
  lemma TwoBytes(c: Caller, a: byte, b: byte, f: seq<byte>, slave: Slave) returns (run: seq<CallStep>)
    requires c.pc == Loading && c.sys.isr.None? && c.sys.fifo == [a, b] + f
    requires var h := c.sys.hw; h.phase == Sending && h.left == 2 && h.txdr.None? && !h.Flagged() && !h.stop
    ensures ValidCall(c, run, slave)
    ensures var t := CallRan(c, run, slave);
            t.pc == Loading && t.sys.fifo == f && t.sys.isr.None? && t.sys.hw.phase == Sending && !t.sys.hw.stop
  {
    hide ValidCall, CallRan;
    var c3 := c.(sys := c.sys.(fifo := [b] + f, hw := c.sys.hw.(txdr := Some(a))));
    var c4 := Called(c3, Engine(Hardware(Shift)), slave);
    var c5 := c4.(sys := c4.sys.(fifo := f, hw := c4.sys.hw.(txdr := Some(b))));
    var byteSteps := [Engine(Hardware(Request)), Engine(Enter), Engine(Body)];
    assert ([a, b] + f)[1..] == [b] + f && ([b] + f)[1..] == f;
    NoRun(c5, slave);
    OneByte(c4, b, [], slave);
    Prepended(c3, Engine(Hardware(Shift)), byteSteps + [], slave);
    OneByte(c, a, [Engine(Hardware(Shift))] + (byteSteps + []), slave);
    run := byteSteps + ([Engine(Hardware(Shift))] + (byteSteps + []));
  }

  /** What is left of a write once its header is in CR2. */
  lemma LastTwo(s: Sys, dev: byte, reg: byte, value: byte)
    requires Launched(s, [WriteReg(dev, reg, value)])
    ensures s.fifo == [reg, value] && Armed(s.hw) && s.isr.None? && s.hw.cr2 == Cr2(2, false, dev)
  {
    hide Queued, Cr2, Assembled, Frames;
    FrameAlone(WriteReg(dev, reg, value));
    assert Frame(WriteReg(dev, reg, value)) == Queued(Cr2(2, false, dev)) + [reg, value];
    PulledWord(Cr2(2, false, dev), [reg, value]);
  }

  /** The call's push and its read of BUSY while START is pending, and then START. */
  lemma PushPollStart(s: Sys, dev: byte, reg: byte, value: byte, x: Xfer, slave: Slave) returns (c: Caller)
    requires Launched(s, [WriteReg(dev, reg, value)]) && x.WriteReg?
    ensures var c0 := Caller(s, x, First);
            && CanCall(c0, Thread) && CanCall(ThreadStep(c0), Thread)
            && CanCall(ThreadStep(ThreadStep(c0)), Engine(Hardware(Address)))
            && c == Called(ThreadStep(ThreadStep(c0)), Engine(Hardware(Address)), slave)
    ensures c.pc == Loading && c.sys.isr.None? && c.sys.fifo == [reg, value] + Frame(x)
    ensures var h := c.sys.hw; h.phase == Sending && h.left == 2 && h.txdr.None? && !h.Flagged() && !h.stop
    ensures Fits(s.fifo, x)
  {
    LastTwo(s, dev, reg, value);
    FirstFits(s.fifo, x);
    Cr2Fields(2, false, dev);
    hide Frame, PushedFirst, Queued, Cr2, Launched, Sadd, ReadBit, NBytes;
    c := Called(ThreadStep(ThreadStep(Caller(s, x, First))), Engine(Hardware(Address)), slave);
  }

  lemma InTime(s: Sys, xs: seq<Xfer>, x: Xfer, run: seq<CallStep>, slave: Slave)
    requires Launched(s, xs) && Fits(s.fifo, x) && ValidCall(Caller(s, x, First), run, slave)
    requires var t := CallRan(Caller(s, x, First), run, slave);
             t.pc == Loading && t.sys.fifo == Frame(x) && t.sys.hw.phase != Idle && !t.sys.hw.stop
    ensures Running(s, slave) && RunningOnBoundary(CallRan(Caller(s, x, First), run, slave).sys, slave)
  {
    hide InTransfer, Further, FirstSegs, PlanOf, CallRan, ValidCall, Fits, Frames, Launched, Frame;
    var p, spot := LaunchedSpot(s, xs, slave);
    var goal := Target(s, xs, slave);
    FrameAlone(x);
    assert Running(s, slave);
    var t := CallRan(Caller(s, x, First), run, slave).sys;
    assert WholeFrames(t.fifo);
    OneOrOther(s, slave);
    FrontIff(s, x, run, slave);
  }

  /** Such a pull exists: a write, called while the START of another is pending, reads BUSY as 0 and comes to its pull
      just when the transfer has taken its last byte from the queue. */
  lemma PullInTime(s: Sys, dev: byte, reg: byte, value: byte, x: Xfer, slave: Slave) returns (run: seq<CallStep>)
    requires Launched(s, [WriteReg(dev, reg, value)]) && x.WriteReg?
    ensures ValidCall(Caller(s, x, First), run, slave)
    ensures var t := CallRan(Caller(s, x, First), run, slave);
            && t.pc == Loading && t.sys.isr.None? && t.sys.fifo == Frame(x)
            && Running(s, slave) && RunningOnBoundary(t.sys, slave)
  {
    var c0 := Caller(s, x, First);
    var c := PushPollStart(s, dev, reg, value, x, slave);
    hide Frame, Fits, Launched, CallRan, ValidCall, ThreadStep, CanCall, Running, RunningOnBoundary;
    run := TwoBytes(c, reg, value, Frame(x), slave);
    Prepended(ThreadStep(ThreadStep(c0)), Engine(Hardware(Address)), run, slave);
    run := [Engine(Hardware(Address))] + run;
    Prepended(ThreadStep(c0), Thread, run, slave);
    run := [Thread] + run;
    Prepended(c0, Thread, run, slave);
    run := [Thread] + run;
    InTime(s, [WriteReg(dev, reg, value)], x, run, slave);
  }

  /** And the earliest one: with a write of 0 and 2 on the bus, neither byte moved, a write to address 2 pulls a header
      that is its own, byte for byte, and leaves a queue in which the 0 and the 2 are repeated. */
  lemma EchoCall(s: Sys, dev: byte, x: Xfer, slave: Slave) returns (run: seq<CallStep>, launch: seq<CallStep>)
    requires Launched(s, [WriteReg(dev, 0, 2)]) && x.WriteReg? && x.dev == 2
    ensures ValidCall(Caller(s, x, First), run, slave)
    ensures var t := CallRan(Caller(s, x, First), run, slave);
            && t.sys.fifo == [0, 2] + Frame(x) && IsLaunch(t, launch, slave) && Calm(t, launch, slave)
            && Target(s, [WriteReg(dev, 0, 2)], slave).bus != []
            && Ends(CallRan(t, launch, slave).sys,
                    Further(Target(s, [WriteReg(dev, 0, 2)], slave), PlanOf(x), slave).bus, slave)
  {
    var xs, c0 := [WriteReg(dev, 0, 2)], Caller(s, x, First);
    var t := PushPollStart(s, dev, 0, 2, x, slave);
    var t1, t2 := ThreadStep(c0), ThreadStep(ThreadStep(c0));
    NoRun(t, slave);
    Prepended(t2, Engine(Hardware(Address)), [], slave);
    Prepended(t1, Thread, [Engine(Hardware(Address))] + [], slave);
    run := [Thread] + ([Thread] + ([Engine(Hardware(Address))] + []));
    Prepended(c0, Thread, [Thread] + ([Engine(Hardware(Address))] + []), slave);
    var q := AddressedPosition(s, dev, 0, 2, x, t, slave);
    launch := [Thread, Thread];
    EchoLaunch(t, dev, x, q, slave, Further(Target(s, xs, slave), PlanOf(x), slave));
  }

  /** A write on its way, its START out, and another write behind it. */
  lemma AddressedPosition(s: Sys, dev: byte, reg: byte, value: byte, x: Xfer, t: Caller, slave: Slave)
    returns (q: Pos)
    requires Launched(s, [WriteReg(dev, reg, value)]) && x.WriteReg?
    requires Fits(s.fifo, x) && Enabled(s.hw, Address) && s.hw.phase == Idle
    requires t.sys == Stepped(s.(fifo := PushedFirst(s.fifo, x)), Hardware(Address), slave)
    ensures Target(s, [WriteReg(dev, reg, value)], slave).bus != []
    ensures q.cur == Send(dev, [reg, value]) && q.rest == PlanOf(x) && q.moved == 0
    ensures InTransfer(t.sys, q, Spot(Whole, [x], []), slave,
                       Further(Target(s, [WriteReg(dev, reg, value)], slave), PlanOf(x), slave))
  {
    var xs := [WriteReg(dev, reg, value)];
    LaunchedIsPlan(s, xs, slave);
    PlanIsActive(s, Plan(xs), slave);
    PlanAlone(xs[0]);
    PlanAlone(x);
    FirstFits(s.fifo, x);
    SegsOfParts(x);
    var p := FirstPos(s.hw, Plan(xs));
    hide Active, Stream, Target, Launched, LaunchedPlan, PushedFirst, FirstPart, Plan, PlanTarget;
    QueueWhileRunning(s, p, slave, Target(s, xs, slave), PlanOf(x));
    q := p.(rest := p.rest + PlanOf(x));
    assert p.rest == [] && [] + PlanOf(x) == PlanOf(x);
    hide Further;
    HardwareKeeps(s.(fifo := PushedFirst(s.fifo, x)), Address, q, slave,
                  Further(Target(s, xs, slave), PlanOf(x), slave));
  }

  lemma EchoLaunch(t: Caller, dev: byte, x: Xfer, q: Pos, slave: Slave, full: Goal)
    requires t.pc == Loading && t.sys.isr.None? && x.WriteReg? && x.dev == 2 && !t.sys.hw.start && t.sys.hw.txdr.None?
    requires t.sys.hw.phase == Sending && t.sys.hw.left == 2
    requires q.cur == Send(dev, [0, 2]) && q.rest == PlanOf(x) && q.moved == 0
    requires InTransfer(t.sys, q, Spot(Whole, [x], []), slave, full)
    ensures IsLaunch(t, [Thread, Thread], slave) && Calm(t, [Thread, Thread], slave)
    ensures Ends(CallRan(t, [Thread, Thread], slave).sys, full.bus, slave)
  {
    var n, c, launch := Spot(Whole, [x], []), ThreadStep(t), [Thread, Thread];
    var u := ThreadStep(c).sys;
    LoadedBus(t.sys);
    assert |t.sys.hw.bus| == |q.g.before| + 1;
    assert launch[1..] == [Thread] && launch[1..][1..] == [];
    hide InTransfer, Ends, Loaded, Addresses, Pulled, Needed, Heading;
    assert CanCall(t, Thread) && CanCall(c, Thread);
    assert CallRan(t, launch, slave).sys == u;
    assert IsLaunch(t, launch, slave) && Calm(t, launch, slave);
    LaunchSplits(t, launch, slave);
    StepForms(t.sys, q, n, slave, full);
    EarlyLaunch(t.sys, q, n, c, launch[1..], slave, full);
  }
}
