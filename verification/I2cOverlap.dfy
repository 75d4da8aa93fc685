/** quasar_i2c_write and quasar_i2c_read entered while a transfer runs: every interleaving of the call's statements with
    the handler and the controller, up to the header it pulls and what that header puts on the bus. */
module I2cOverlap {
  import opened Words
  import opened Ring
  import opened Fifo
  import opened I2cBus
  import opened I2cEngine
  import opened I2cCalls

  // Longer plans.

  lemma {:induction false} StreamAppend(segs: seq<Seg>, more: seq<Seg>)
    ensures Stream(segs + more) == Stream(segs) + Stream(more)
  {
    if segs == [] {
      assert segs + more == more;
    } else {
      assert (segs + more)[1..] == segs[1..] + more;
      StreamAppend(segs[1..], more);
    }
  }

  lemma {:induction false} HeardAppend(segs: seq<Seg>, more: seq<Seg>)
    ensures HeardBy(segs + more) == HeardBy(segs) + HeardBy(more)
  {
    if segs == [] {
      assert segs + more == more;
    } else {
      assert (segs + more)[1..] == segs[1..] + more;
      HeardAppend(segs[1..], more);
    }
  }

  lemma {:induction false} TraceAppend(segs: seq<Seg>, more: seq<Seg>, slave: Slave, k: nat)
    ensures Trace(segs + more, slave, k, false)
         == Trace(segs, slave, k, false) + Trace(more, slave, k + HeardBy(segs), false)
  {
    if segs == [] {
      assert segs + more == more;
    } else {
      assert (segs + more)[1..] == segs[1..] + more;
      TraceAppend(segs[1..], more, slave, k + segs[0].Heard());
    }
  }

  lemma {:induction false} StoresAppend(mem: Memory, segs: seq<Seg>, more: seq<Seg>, slave: Slave, k: nat)
    ensures Stores(mem, segs + more, slave, k) == Stores(Stores(mem, segs, slave, k), more, slave, k + HeardBy(segs))
    decreases segs
  {
    if segs == [] {
      assert segs + more == more;
    } else {
      assert (segs + more)[1..] == segs[1..] + more;
      StoresAppend(segs[0].Store(mem, slave, k), segs[1..], more, slave, k + segs[0].Heard());
    }
  }

  lemma {:induction false} PlanAppend(xs: seq<Xfer>, ys: seq<Xfer>)
    ensures Plan(xs + ys) == Plan(xs) + Plan(ys)
  {
    if xs == [] {
      assert xs + ys == ys;
    } else {
      assert (xs + ys)[1..] == xs[1..] + ys;
      PlanAppend(xs[1..], ys);
      assert PlanOf(xs[0]) + (Plan(xs[1..]) + Plan(ys)) == PlanOf(xs[0]) + Plan(xs[1..]) + Plan(ys);
    }
  }

  lemma PlanAlone(x: Xfer)
    ensures Plan([x]) == PlanOf(x)
  {
    assert [x][1..] == [];
  }

  /** The goal of a run after more segments have been queued behind its plan. */
  function Further(goal: Goal, more: seq<Seg>, slave: Slave): Goal
    requires goal.bus != []
  {
    Goal(goal.bus[..|goal.bus| - 1] + Trace(more, slave, goal.heard, false) + [Stop],
         Stores(goal.mem, more, slave, goal.heard), goal.heard + HeardBy(more))
  }

  lemma FurtherTwice(goal: Goal, a: seq<Seg>, b: seq<Seg>, slave: Slave)
    requires goal.bus != []
    ensures Further(Further(goal, a, slave), b, slave) == Further(goal, a + b, slave)
  {
    hide Trace, Stores, HeardBy;
    TraceAppend(a, b, slave, goal.heard);
    StoresAppend(goal.mem, a, b, slave, goal.heard);
    HeardAppend(a, b);
    var front, ta, tb := goal.bus[..|goal.bus| - 1], Trace(a, slave, goal.heard, false),
                         Trace(b, slave, goal.heard + HeardBy(a), false);
    assert (front + ta + [Stop])[..|front + ta + [Stop]| - 1] == front + ta;
    assert front + ta + tb == front + (ta + tb);
  }

  /** Segments queued while the engine runs are simply chained: the run stays framed and heads for the longer goal. */
  lemma QueueWhileRunning(s: Sys, p: Pos, slave: Slave, goal: Goal, more: seq<Seg>)
    requires Active(s, p, slave, goal) && AllWf(more)
    ensures goal.bus != []
    ensures Active(s.(fifo := s.fifo + Stream(more)), p.(rest := p.rest + more), slave, Further(goal, more, slave))
  {
    hide InSegment, Stream, Trace, Stores, HeardBy;
    var q := p.(rest := p.rest + more);
    StreamAppend(p.rest, more);
    assert Framed(s.fifo, p) && Framed(s.fifo + Stream(more), q);
    hide Framed, OnBus;
    FurtherAims(s.mem, p, slave, goal, more);
  }

  lemma FurtherAims(mem: Memory, p: Pos, slave: Slave, goal: Goal, more: seq<Seg>)
    requires Aims(mem, p, slave, goal)
    ensures goal.bus != [] && Aims(mem, p.(rest := p.rest + more), slave, Further(goal, more, slave))
  {
    hide Stream, Trace, Stores, HeardBy;
    var k := p.g.k + p.cur.Heard();
    TraceAppend(p.rest, more, slave, k);
    StoresAppend(if p.moved == 0 then p.cur.Store(mem, slave, p.g.k) else mem, p.rest, more, slave, k);
    HeardAppend(p.rest, more);
    var prefix := p.g.before + [p.g.open] + p.cur.Data(slave, p.g.k) + Trace(p.rest, slave, k, false);
    assert goal.bus == prefix + [Stop] && goal.bus[..|goal.bus| - 1] == prefix;
  }

  // Where a transfer made of register transactions stands.

  /** The segment on the bus: a whole write, the register half of a read with its read half still queued, the read half,
      or the register half of a read whose read half has not been queued. */
  datatype Part = Whole | Half(ptr: word) | Tail | Cut

  /** The whole frames queued behind the segment, and a register half behind them. */
  datatype Spot = Spot(part: Part, zs: seq<Xfer>, extra: seq<Seg>)

  ghost predicate At(p: Pos, spot: Spot) {
    && p.cur.dev < 0x100
    && match spot.part
       case Whole => p.cur.Send? && |p.cur.bytes| == 2 && p.rest == Plan(spot.zs) + spot.extra
       case Half(ptr) =>
         && p.cur.Send? && |p.cur.bytes| == 1
         && p.rest == [Recv(p.cur.dev, ptr)] + (Plan(spot.zs) + spot.extra)
       case Tail => p.cur.Recv? && p.g.open.Restart? && p.rest == Plan(spot.zs) + spot.extra
       case Cut => p.cur.Send? && |p.cur.bytes| == 1 && p.rest == [] && spot.zs == [] && spot.extra == []
  }

  ghost predicate InTransfer(s: Sys, p: Pos, spot: Spot, slave: Slave, goal: Goal) {
    Active(s, p, slave, goal) && At(p, spot)
  }

  /** Only whole frames. */
  predicate Plain(spot: Spot) { spot.extra == [] && !spot.part.Cut? }

  function RegisterHalf(x: Xfer): Seg { Send(x.dev, [x.reg]) }

  function FirstSegs(x: Xfer): seq<Seg> { if x.WriteReg? then PlanOf(x) else [RegisterHalf(x)] }

  function SecondSegs(x: Xfer): seq<Seg> { if x.WriteReg? then [] else [Recv(x.dev, x.ptr)] }

  lemma SegsOfParts(x: Xfer)
    ensures Stream(FirstSegs(x)) == FirstPart(x) && Stream(SecondSegs(x)) == SecondPart(x)
    ensures FirstSegs(x) + SecondSegs(x) == PlanOf(x) && AllWf(FirstSegs(x)) && AllWf(SecondSegs(x))
  {
    hide Queued, Cr2;
    if x.WriteReg? {
      FrameIsStream(x, []);
      assert PlanOf(x) + [] == PlanOf(x);
      assert Frame(x) + [] == Frame(x);
    } else {
      assert [RegisterHalf(x)][1..] == [] && [Recv(x.dev, x.ptr)][1..] == [];
      assert Queued(Cr2(1, false, x.dev)) + [x.reg] + [] == Queued(Cr2(1, false, x.dev)) + [x.reg];
      assert Queued(Cr2(1, true, x.dev)) + Queued(x.ptr) + [] == Queued(Cr2(1, true, x.dev)) + Queued(x.ptr);
    }
  }

  /** The register half of x is queued or on the bus, its read half not queued. */
  ghost predicate HalfOpen(p: Pos, spot: Spot, x: Xfer) {
    if spot.part.Cut? then p.cur == RegisterHalf(x) else spot.extra == [RegisterHalf(x)]
  }

  /** The next segment of a plan of whole frames, and at its end a register half. */
  lemma SpotFollows(p: Pos, q: Pos, spot: Spot, x: Xfer) returns (n: Spot)
    requires At(p, spot) && Follows(p, q) && (Plain(spot) || HalfOpen(p, spot, x))
    ensures At(q, n)
    ensures Plain(spot) ==> Plain(n)
    ensures HalfOpen(p, spot, x) ==> HalfOpen(q, n, x)
  {
    if q.cur == p.cur && q.rest == p.rest && q.g == p.g {
      n := spot;
    } else if spot.part.Half? {
      assert p.rest[1..] == Plan(spot.zs) + spot.extra;
      n := spot.(part := Tail);
    } else if spot.zs != [] {
      n := NextFrame(spot);
      PlanSplit(spot.zs, spot.extra);
    } else {
      assert p.rest == spot.extra;
      n := Spot(Cut, [], []);
    }
  }

  function NextFrame(spot: Spot): Spot
    requires spot.zs != []
  {
    var z := spot.zs[0];
    Spot(if z.WriteReg? then Whole else Half(z.ptr), spot.zs[1..], spot.extra)
  }

  lemma PlanSplit(zs: seq<Xfer>, extra: seq<Seg>)
    requires zs != []
    ensures var r, z := Plan(zs) + extra, zs[0];
            && r != []
            && (z.WriteReg? ==> r[0] == Send(z.dev, [z.reg, z.value]) && r[1..] == Plan(zs[1..]) + extra)
            && (z.ReadReg? ==> r[0] == Send(z.dev, [z.reg])
                               && r[1..] == [Recv(z.dev, z.ptr)] + (Plan(zs[1..]) + extra))
  {
    assert Plan(zs) + extra == PlanOf(zs[0]) + (Plan(zs[1..]) + extra);
  }

  /** Any step of a transfer has its START out. */
  lemma StartIsOut(s: Sys, step: Step, p: Pos, slave: Slave, goal: Goal)
    requires Active(s, p, slave, goal) && CanStep(s, step)
    ensures Stepped(s, step, slave).hw.phase != Idle
  {
    hide Framed, Aims, Pulled;
    if step.Hardware? {
      var loaded := if p.cur.Send? then p.cur.bytes[..p.moved] else [];
      SegmentStable(s.hw, step.e, p.g, slave, loaded, if p.cur.Send? then 0 else p.moved);
    }
  }

  /** One engine step of a transfer: it stays a transfer of the same kind, or it is done. */
  lemma TransferStep(s: Sys, step: Step, p: Pos, spot: Spot, x: Xfer, slave: Slave, goal: Goal)
      returns (q: Pos, n: Spot)
    requires InTransfer(s, p, spot, slave, goal) && CanStep(s, step) && (Plain(spot) || HalfOpen(p, spot, x))
    ensures var t := Stepped(s, step, slave);
            && (InTransfer(t, q, n, slave, goal) || Ending(t, goal))
            && (InTransfer(t, q, n, slave, goal) ==>
                  (Plain(spot) ==> Plain(n)) && (HalfOpen(p, spot, x) ==> HalfOpen(q, n, x)))
            && |t.fifo| <= |s.fifo|
  {
    hide Active, Ending, Stepped, CanStep, At, Plain, HalfOpen;
    QueueShrinks(s, step, slave);
    q := StepKeeps(s, step, p, slave, goal);
    n := SpotFollows(p, q, spot, x);
  }

  lemma EndingStep(s: Sys, step: Step, slave: Slave, goal: Goal)
    requires Ending(s, goal) && CanStep(s, step)
    ensures Ending(Stepped(s, step, slave), goal)
  {
    ClosingStep(s, step, slave, goal.bus);
  }

  // The call.

  /** A read whose register half was carried out on its own: the queue holds the other half. */
  ghost predicate Split(s: Sys, x: Xfer, goal: Goal) {
    && x.ReadReg? && Closing(s.hw, goal.bus) && s.fifo == SecondPart(x) && s.mem == goal.mem && s.hw.heard == goal.heard
    && s.isr.None?
  }

  /** Where a call stands that was entered during a transfer heading for `goal`. */
  ghost predicate Stage(c: Caller, p: Pos, spot: Spot, slave: Slave, goal: Goal) {
    && goal.bus != [] && Room(c.sys.fifo, c.x, c.pc)
    && var half, full := Further(goal, FirstSegs(c.x), slave), Further(goal, PlanOf(c.x), slave);
       match c.pc
       case First => InTransfer(c.sys, p, spot, slave, goal) && Plain(spot)
       case Second =>
         && c.x.ReadReg?
         && ((InTransfer(c.sys, p, spot, slave, half) && HalfOpen(p, spot, c.x)
              && (c.sys.hw.phase == Idle ==> !spot.part.Cut?))
             || Ending(c.sys, half))
       case Polling(_) => Pushed(c.sys, c.x, p, spot, slave, half, full)
       case Loading => Pushed(c.sys, c.x, p, spot, slave, half, full)
       case Returned(ok) => !ok && Pushed(c.sys, c.x, p, spot, slave, half, full)
       case Starting => false
  }

  /** All pushes made: the frame is chained into the running transfer, or has been carried out with it, or was split. */
  ghost predicate Pushed(s: Sys, x: Xfer, p: Pos, spot: Spot, slave: Slave, half: Goal, full: Goal) {
    || (InTransfer(s, p, spot, slave, full) && Plain(spot) && (s.hw.phase == Idle ==> spot.zs != []))
    || Ending(s, full)
    || Split(s, x, half)
  }

  /** The first section of a write, or of a read. */
  lemma PushesFirst(c: Caller, p: Pos, spot: Spot, slave: Slave, goal: Goal) returns (q: Pos, n: Spot)
    requires c.pc == First && Stage(c, p, spot, slave, goal)
    ensures Stage(ThreadStep(c), q, n, slave, goal)
  {
    hide Active, Stream, Further, PushedFirst, FirstPart, Plan, PlanOf;
    var x := c.x;
    FirstFits(c.sys.fifo, x);
    SegsOfParts(x);
    QueueWhileRunning(c.sys, p, slave, goal, FirstSegs(x));
    q := p.(rest := p.rest + FirstSegs(x));
    if x.WriteReg? {
      n := spot.(zs := spot.zs + [x]);
      LongerPlan(p, spot, PlanOf(x));
      PlanAppend(spot.zs, [x]);
      PlanAlone(x);
    } else {
      n := spot.(extra := FirstSegs(x));
      LongerPlan(p, spot, FirstSegs(x));
    }
  }

  lemma LongerPlan(p: Pos, spot: Spot, more: seq<Seg>)
    requires At(p, spot) && Plain(spot)
    ensures spot.part.Whole? || spot.part.Tail? ==> p.rest + more == Plan(spot.zs) + more
    ensures spot.part.Half? ==> p.rest + more == [Recv(p.cur.dev, spot.part.ptr)] + (Plan(spot.zs) + more)
    ensures Plan(spot.zs) + more + [] == Plan(spot.zs) + more
  {
  }

  /** The second section of a read: the whole frame is chained if the register half has not been carried out yet, and
      split otherwise. */
  lemma PushesSecond(c: Caller, p: Pos, spot: Spot, slave: Slave, goal: Goal) returns (q: Pos, n: Spot)
    requires c.pc == Second && Stage(c, p, spot, slave, goal)
    ensures Stage(ThreadStep(c), q, n, slave, goal)
    ensures var half, full := Further(goal, FirstSegs(c.x), slave), Further(goal, PlanOf(c.x), slave);
            && (Ending(c.sys, half) ==> Split(ThreadStep(c).sys, c.x, half))
            && (!Ending(c.sys, half) ==> InTransfer(ThreadStep(c).sys, q, n, slave, full) && Plain(n))
  {
    hide Active, Stream, Further, PushedSecond, SecondPart, Plan, Ending, HalfOpen, At;
    var x := c.x;
    var half := Further(goal, FirstSegs(x), slave);
    SecondFits(c.sys.fifo, x);
    q, n := p, spot;
    if Ending(c.sys, half) {
      EndingIsSplit(c.sys, x, half);
    } else {
      SegsOfParts(x);
      QueueWhileRunning(c.sys, p, slave, half, SecondSegs(x));
      FurtherTwice(goal, FirstSegs(x), SecondSegs(x), slave);
      q := p.(rest := p.rest + SecondSegs(x));
      n := Joined(p, spot, x);
    }
  }

  lemma EndingIsSplit(s: Sys, x: Xfer, half: Goal)
    requires x.ReadReg? && Ending(s, half)
    ensures Split(s.(fifo := s.fifo + SecondPart(x)), x, half)
  {
    hide SecondPart;
    assert [] + SecondPart(x) == SecondPart(x);
  }

  lemma Joined(p: Pos, spot: Spot, x: Xfer) returns (n: Spot)
    requires x.ReadReg? && At(p, spot) && HalfOpen(p, spot, x)
    ensures At(p.(rest := p.rest + SecondSegs(x)), n) && Plain(n) && (!spot.part.Cut? ==> n.zs == spot.zs + [x])
  {
    if spot.part.Cut? {
      n := Spot(Half(x.ptr), [], []);
      assert Plan([]) == [];
      assert p.rest + SecondSegs(x) == [Recv(p.cur.dev, x.ptr)] + (Plan([]) + []);
    } else {
      n := Spot(spot.part, spot.zs + [x], []);
      PlanAppend(spot.zs, [x]);
      PlanAlone(x);
      assert [RegisterHalf(x)] + SecondSegs(x) == PlanOf(x);
      assert Plan(spot.zs) + [RegisterHalf(x)] + SecondSegs(x) == Plan(spot.zs + [x]) + [];
    }
  }

  lemma StageThread(c: Caller, p: Pos, spot: Spot, slave: Slave, goal: Goal) returns (q: Pos, n: Spot)
    requires Stage(c, p, spot, slave, goal) && (c.pc.First? || c.pc.Second? || c.pc.Polling?)
    ensures Stage(ThreadStep(c), q, n, slave, goal)
  {
    q, n := p, spot;
    match c.pc
    case First => q, n := PushesFirst(c, p, spot, slave, goal);
    case Second => q, n := PushesSecond(c, p, spot, slave, goal);
    case Polling(_) =>
  }

  lemma SplitStep(s: Sys, step: Step, x: Xfer, slave: Slave, goal: Goal)
    requires Split(s, x, goal) && CanStep(s, step)
    ensures Split(Stepped(s, step, slave), x, goal)
  {
    hide SecondPart;
    ClosingStep(s, step, slave, goal.bus);
  }

  lemma StageEngine(c: Caller, step: Step, p: Pos, spot: Spot, slave: Slave, goal: Goal) returns (q: Pos, n: Spot)
    requires Stage(c, p, spot, slave, goal) && CanCall(c, Engine(step))
    ensures Stage(Called(c, Engine(step), slave), q, n, slave, goal)
  {
    hide Active, Ending, At, Further, HalfOpen, Split, FirstSegs, Stepped, CanStep;
    q, n := p, spot;
    var half, full := Further(goal, FirstSegs(c.x), slave), Further(goal, PlanOf(c.x), slave);
    var aim := if c.pc == Second then half else full;
    QueueShrinks(c.sys, step, slave);
    if Ending(c.sys, aim) {
      EndingStep(c.sys, step, slave, aim);
    } else if (c.pc.Polling? || c.pc.Loading?) && Split(c.sys, c.x, half) {
      SplitStep(c.sys, step, c.x, slave, half);
    } else {
      q, n := TransferStep(c.sys, step, p, spot, c.x, slave, aim);
      StartIsOut(c.sys, step, p, slave, aim);
    }
  }

  lemma {:induction false} LateStays(c: Caller, run: seq<CallStep>, slave: Slave)
    requires (c.pc == Starting || c.pc == Returned(true)) && ValidCall(c, run, slave)
    ensures var t := CallRan(c, run, slave); t.x == c.x && (t.pc == Starting || t.pc == Returned(true))
    decreases run
  {
    hide Pulled, Stepped, CanStep;
    if run != [] {
      LateStays(Called(c, run[0], slave), run[1..], slave);
    }
  }

  lemma {:induction false} StageRun(c: Caller, run: seq<CallStep>, p: Pos, spot: Spot, slave: Slave, goal: Goal)
    returns (q: Pos, n: Spot)
    requires Stage(c, p, spot, slave, goal) && ValidCall(c, run, slave)
    ensures var t := CallRan(c, run, slave);
            t.x == c.x && (t.pc != Starting && t.pc != Returned(true) ==> Stage(t, q, n, slave, goal))
    decreases run
  {
    hide Stage;
    q, n := p, spot;
    if run != [] {
      var d := Called(c, run[0], slave);
      if c.pc == Loading && run[0].Thread? {
        LateStays(d, run[1..], slave);
      } else {
        StageIsEarly(c, p, spot, slave, goal);
        if run[0].Engine? {
          q, n := StageEngine(c, run[0].step, p, spot, slave, goal);
        } else {
          q, n := StageThread(c, p, spot, slave, goal);
        }
        q, n := StageRun(d, run[1..], q, n, slave, goal);
      }
    }
  }

  lemma StageIsEarly(c: Caller, p: Pos, spot: Spot, slave: Slave, goal: Goal)
    requires Stage(c, p, spot, slave, goal)
    ensures c.pc != Starting && c.pc != Returned(true)
  {
  }

  lemma OverlapStages(s: Sys, p: Pos, spot: Spot, slave: Slave, goal: Goal, x: Xfer, run: seq<CallStep>)
    returns (q: Pos, n: Spot)
    requires InTransfer(s, p, spot, slave, goal) && Plain(spot) && Fits(s.fifo, x)
    requires ValidCall(Caller(s, x, First), run, slave)
    ensures goal.bus != []
    ensures var t := CallRan(Caller(s, x, First), run, slave);
            t.pc.Polling? || t.pc == Loading || t.pc == Returned(false) ==>
              Pushed(t.sys, x, q, n, slave, Further(goal, FirstSegs(x), slave), Further(goal, PlanOf(x), slave))
  {
    hide At, Active, Further, FirstSegs, PlanOf, Fits;
    GoalHasStop(s, p, slave, goal);
    q, n := StageRun(Caller(s, x, First), run, p, spot, slave, goal);
  }

  /** A call entered during a transfer, in every interleaving. Once its pushes are made, its frame is chained behind the
      transfer or has been carried out with it, or, a read only, its register half has been carried out and its read
      half is left in the queue. Whatever the call then pulls as its header comes from there. */
  lemma {:induction false} OverlappingCall(s: Sys, p: Pos, spot: Spot, slave: Slave, goal: Goal, x: Xfer,
                                           run: seq<CallStep>)
    requires InTransfer(s, p, spot, slave, goal) && Plain(spot) && Fits(s.fifo, x)
    requires ValidCall(Caller(s, x, First), run, slave)
    ensures goal.bus != []
    ensures var t := CallRan(Caller(s, x, First), run, slave);
            t.pc.Polling? || t.pc == Loading || t.pc == Returned(false) ==>
              exists q, n ::
                Pushed(t.sys, x, q, n, slave, Further(goal, FirstSegs(x), slave), Further(goal, PlanOf(x), slave))
  {
    var q, n := OverlapStages(s, p, spot, slave, goal, x, run);
  }

  lemma GoalHasStop(s: Sys, p: Pos, slave: Slave, goal: Goal)
    requires Active(s, p, slave, goal)
    ensures goal.bus != []
  {
  }

  // Which bytes are whole frames.

  /** The fixed bytes of the first frame, and what follows it. */
  lemma FrameBytes(xs: seq<Xfer>)
    requires xs != []
    ensures var f, x := Frames(xs), xs[0];
            && |f| >= 6 && f[0] == 0 && f[2] == 0 && f[3] == x.dev && f[4] == x.reg
            && (x.WriteReg? ==> f[1] == 2 && f[5] == x.value && f[6..] == Frames(xs[1..]))
            && (x.ReadReg? ==> |f| >= 13 && f[1] == 1 && f[5] == 0 && f[6] == 1 && f[7] == 4 && f[8] == x.dev
                               && f[13..] == Frames(xs[1..]))
  {
    hide Frame, Queued, Cr2;
    var x, more := xs[0], Frames(xs[1..]);
    assert Frames(xs) == Frame(x) + more;
    hide Frames;
    if x.WriteReg? {
      WriteBytes(x);
    } else {
      ReadBytes(x);
    }
    assert (Frame(x) + more)[|Frame(x)|..] == more;
  }

  lemma WriteBytes(x: Xfer)
    requires x.WriteReg?
    ensures Frame(x) == [0, 2, 0, x.dev, x.reg, x.value]
  {
    hide Queued, Cr2;
    HeaderBytes(2, false, x.dev);
  }

  lemma ReadBytes(x: Xfer)
    requires x.ReadReg?
    ensures var f := Frame(x);
            |f| == 13 && f[..9] == [0, 1, 0, x.dev, x.reg, 0, 1, 4, x.dev] && f[0] == 0 && f[1] == 1 && f[2] == 0
            && f[3] == x.dev && f[4] == x.reg && f[5] == 0 && f[6] == 1 && f[7] == 4 && f[8] == x.dev
  {
    hide Queued, Cr2;
    HeaderBytes(1, false, x.dev);
    HeaderBytes(1, true, x.dev);
    var f := [0, 1, 0, x.dev] + [x.reg] + [0, 1, 4, x.dev] + Queued(x.ptr);
    assert Frame(x) == f;
    assert f[5] == 0 && f[6] == 1 && f[7] == 4 && f[8] == x.dev;
  }

  lemma HeaderBytes(n: nat, rd: bool, dev: byte)
    requires n < 0x100
    ensures Queued(Cr2(n, rd, dev)) == [0, n, if rd then 4 else 0, dev]
  {
    var r := if rd then 4 else 0;
    var w: int := Cr2(n, rd, dev);
    assert w == n * 0x1_0000 + r * 0x100 + dev;
    assert w % 0x100 == dev && w / 0x100 == n * 0x100 + r;
    assert w / 0x1_0000 == n && w / 0x100_0000 == 0;
    assert Image(w) == [dev, r, n, 0];
  }

  /** Bytes in front of whole frames, as many as a transfer leaves there, never make whole frames with them. */
  lemma {:induction false} Misaligned(a: seq<byte>, zs: seq<Xfer>, ys: seq<Xfer>)
    requires |a| == 1 || |a| == 2 || |a| == 4 || |a| == 5
    ensures a + Frames(zs) != Frames(ys)
    decreases |ys|, 1
  {
    hide Frames;
    NoFrames();
    if ys != [] {
      FrameBytes(ys);
      if zs == [] {
        assert |a + Frames(zs)| < 6;
      } else if |a| == 2 {
        TwoBehind(a, zs, ys);
      } else if |a| == 4 {
        FourBehind(a, zs, ys);
      } else {
        OddBehind(a, zs, ys);
      }
    }
  }

  lemma OddBehind(a: seq<byte>, zs: seq<Xfer>, ys: seq<Xfer>)
    requires (|a| == 1 || |a| == 5) && zs != [] && ys != []
    ensures a + Frames(zs) != Frames(ys)
  {
    hide Frames;
    if a + Frames(zs) == Frames(ys) {
      FrameBytes(ys);
      FrameBytes(zs);
      var f, g := Frames(ys), Frames(zs);
      assert f[|a|] == g[0] && f[|a| + 1] == g[1] && f[|a| + 2] == g[2];
      if |a| == 5 && ys[0].WriteReg? {
        assert f[6..][0] == g[1] && ys[1..] != [] by { NoFrames(); }
        FrameBytes(ys[1..]);
      }
    }
  }

  lemma {:induction false} TwoBehind(a: seq<byte>, zs: seq<Xfer>, ys: seq<Xfer>)
    requires |a| == 2 && zs != [] && ys != []
    ensures a + Frames(zs) != Frames(ys)
    decreases |ys|, 0
  {
    hide Frames;
    if a + Frames(zs) == Frames(ys) {
      NoFrames();
      FrameBytes(ys);
      FrameBytes(zs);
      var f, g, z := Frames(ys), Frames(zs), zs[0];
      assert f[3] == g[1] && f[5] == g[3] && f[7] == g[5];
      if ys[0].ReadReg? {
        assert z.WriteReg? && f[8] == g[6..][0];
        FrameBytes(zs[1..]);
      } else {
        assert f[6..] == g[4..];
        if z.WriteReg? {
          assert g[4..] == [z.reg, z.value] + g[6..];
          Misaligned([z.reg, z.value], zs[1..], ys[1..]);
        } else {
          assert f[6..][1] == g[5];
          FrameBytes(ys[1..]);
        }
      }
    }
  }

  lemma {:induction false} FourBehind(a: seq<byte>, zs: seq<Xfer>, ys: seq<Xfer>)
    requires |a| == 4 && zs != [] && ys != []
    ensures a + Frames(zs) != Frames(ys)
    decreases |ys|, 0
  {
    hide Frames;
    if a + Frames(zs) == Frames(ys) {
      NoFrames();
      FrameBytes(ys);
      FrameBytes(zs);
      var f, g, z := Frames(ys), Frames(zs), zs[0];
      assert f[5] == g[1];
      assert f[6..] == g[2..];
      if z.WriteReg? {
        assert g[2..] == g[2..6] + g[6..];
        Misaligned(g[2..6], zs[1..], ys[1..]);
      } else {
        FrameBytes(ys[1..]);
        assert f[6..][5] == g[7] == 4;
        assert f[6..][6..] == g[8..] == g[8..13] + g[13..];
        Misaligned(g[8..13], zs[1..], ys[1..][1..]);
      }
    }
  }

  ghost predicate WholeFrames(fifo: seq<byte>) { exists ys :: ys != [] && fifo == Frames(ys) }

  /** The segment on the bus has moved all its bytes, is not the register half of a read, and a frame is behind it. */
  predicate OnBoundary(p: Pos, spot: Spot) { !spot.part.Half? && p.moved == p.cur.Units() && spot.zs != [] }

  /** What a transfer leaves in the queue in front of the whole frames. */
  function Front(p: Pos, spot: Spot): seq<byte> {
    var moving := if p.cur.Recv? then (if p.moved == 0 then Queued(p.cur.ptr) else [])
                  else if p.moved <= |p.cur.bytes| then p.cur.bytes[p.moved..] else [];
    if spot.part.Half? then moving + Queued(Cr2(1, true, p.cur.dev)) + Queued(spot.part.ptr) else moving
  }

  lemma QueueDuring(s: Sys, p: Pos, spot: Spot, slave: Slave, goal: Goal)
    requires InTransfer(s, p, spot, slave, goal) && Plain(spot)
    ensures s.fifo == Front(p, spot) + Frames(spot.zs)
  {
    hide Queued, Cr2, OnBus, Aims, LatchHolds, Frames, Plan;
    PlanStream(spot.zs);
    assert Plan(spot.zs) + [] == Plan(spot.zs);
    if spot.part.Half? {
      var read := [Recv(p.cur.dev, spot.part.ptr)] + Plan(spot.zs);
      assert read[1..] == Plan(spot.zs);
      Regrouped(p.cur.bytes[p.moved..], Queued(Cr2(1, true, p.cur.dev)), Queued(spot.part.ptr), Frames(spot.zs));
    }
  }

  lemma Regrouped(a: seq<byte>, b: seq<byte>, c: seq<byte>, d: seq<byte>)
    ensures a + (b + c + d) == a + b + c + d
  {
  }

  /** During a transfer the queue holds whole frames exactly on a boundary. */
  lemma BoundaryIff(s: Sys, p: Pos, spot: Spot, slave: Slave, goal: Goal)
    requires InTransfer(s, p, spot, slave, goal) && Plain(spot)
    ensures WholeFrames(s.fifo) <==> OnBoundary(p, spot)
  {
    QueueDuring(s, p, spot, slave, goal);
    BoundaryFront(p, spot);
    assert p.moved <= p.cur.Units();
    hide InTransfer, Front, Frames;
    var a := Front(p, spot);
    forall ys | ys != []
      ensures s.fifo == Frames(ys) ==> OnBoundary(p, spot)
    {
      if |a| == 0 {
        assert a + Frames(spot.zs) == Frames(spot.zs);
        if spot.zs == [] {
          NoFrames();
          FrameBytes(ys);
        }
      } else if spot.part.Half? {
        FrameBytes(ys);
      } else {
        Misaligned(a, spot.zs, ys);
      }
    }
    if OnBoundary(p, spot) {
      assert a + Frames(spot.zs) == Frames(spot.zs);
    }
  }

  lemma BoundaryFront(p: Pos, spot: Spot)
    requires At(p, spot) && Plain(spot) && p.moved <= p.cur.Units()
    ensures var a := Front(p, spot);
            && (spot.part.Half? ==> |a| >= 8 && (p.moved == 0 ==> a[1] == 0) && (p.moved > 0 ==> a[2] == 4))
            && (!spot.part.Half? ==> |a| == 0 || |a| == 1 || |a| == 2 || |a| == 4)
            && (|a| == 0 <==> !spot.part.Half? && p.moved == p.cur.Units())
  {
    hide Queued, Cr2, Plan;
    if spot.part.Half? {
      HeaderBytes(1, true, p.cur.dev);
    }
  }

  // When a call launches whole frames.

  /** A transfer of register transactions is under way, from the START request on until STOP is requested. */
  ghost predicate Running(s: Sys, slave: Slave) {
    exists p, spot, goal :: InTransfer(s, p, spot, slave, goal) && Plain(spot)
  }

  /** No transfer runs. */
  ghost predicate Rested(s: Sys) { exists xs :: Quiet(s, xs) }

  ghost predicate RestedWithFrames(s: Sys) { exists ys :: ys != [] && Quiet(s, ys) }

  lemma OneOrOther(s: Sys, slave: Slave)
    requires Running(s, slave)
    ensures !Rested(s)
  {
    var p, spot, goal :| InTransfer(s, p, spot, slave, goal) && Plain(spot);
    ActiveIsUnsettled(s, p, slave, goal);
  }

  /** After any number of engine steps a launched transfer is either running or has reached its goal. */
  lemma {:induction false} LaunchedRuns(s: Sys, xs: seq<Xfer>, run: seq<Step>, slave: Slave)
    requires Launched(s, xs) && ValidRun(s, run, slave)
    ensures Running(Ran(s, run, slave), slave) || Ending(Ran(s, run, slave), Target(s, xs, slave))
  {
    hide Ran, ValidRun, Launched, Target, Ending, InTransfer;
    var goal := Target(s, xs, slave);
    var p, spot := LaunchedSpot(s, xs, slave);
    RunsOn(s, run, p, spot, slave, goal);
  }

  lemma LaunchedSpot(s: Sys, xs: seq<Xfer>, slave: Slave) returns (p: Pos, spot: Spot)
    requires Launched(s, xs)
    ensures InTransfer(s, p, spot, slave, Target(s, xs, slave)) && Plain(spot)
  {
    LaunchedIsPlan(s, xs, slave);
    PlanIsActive(s, Plan(xs), slave);
    hide Active, Plan, Target, PlanTarget, LaunchedPlan;
    PlanSplit(xs, []);
    assert Plan(xs) + [] == Plan(xs);
    p := FirstPos(s.hw, Plan(xs));
    spot := NextFrame(Spot(Whole, xs, []));
  }

  lemma {:induction false} RunsOn(s: Sys, run: seq<Step>, p: Pos, spot: Spot, slave: Slave, goal: Goal)
    requires InTransfer(s, p, spot, slave, goal) && Plain(spot) && ValidRun(s, run, slave)
    ensures Running(Ran(s, run, slave), slave) || Ending(Ran(s, run, slave), goal)
    decreases run
  {
    hide InTransfer, Plain, Ending, Stepped, CanStep;
    if run != [] {
      var q, n := TransferStep(s, run[0], p, spot, WriteReg(0, 0, 0), slave, goal);
      if InTransfer(Stepped(s, run[0], slave), q, n, slave, goal) {
        RunsOn(Stepped(s, run[0], slave), run[1..], q, n, slave, goal);
      } else {
        EndingRun(Stepped(s, run[0], slave), run[1..], slave, goal);
      }
    }
  }

  lemma {:induction false} EndingRun(s: Sys, run: seq<Step>, slave: Slave, goal: Goal)
    requires Ending(s, goal) && ValidRun(s, run, slave)
    ensures Ending(Ran(s, run, slave), goal)
    decreases run
  {
    hide Ending;
    if run != [] {
      EndingStep(s, run[0], slave, goal);
      EndingRun(Stepped(s, run[0], slave), run[1..], slave, goal);
    }
  }

  lemma SecondPartBytes(x: Xfer)
    requires x.ReadReg?
    ensures |SecondPart(x)| == 8 && SecondPart(x)[2] == 4 && Pulled(SecondPart(x)) == Cr2(1, true, x.dev)
    ensures !WholeFrames(SecondPart(x)) && !WholeFrames([])
  {
    hide Cr2, Queued, Assembled;
    HeaderBytes(1, true, x.dev);
    PulledWord(Cr2(1, true, x.dev), Queued(x.ptr));
    hide Frames;
    forall ys | ys != []
      ensures Frames(ys) != SecondPart(x) && Frames(ys) != []
    {
      FrameBytes(ys);
    }
  }

  lemma FourBytes(f: seq<byte>)
    requires |f| >= 4
    ensures Pulled(f) == f[0] as int * 0x100_0000 + f[1] as int * 0x1_0000 + f[2] as int * 0x100 + f[3]
  {
    hide Assembled;
    AssembledIsBigEndian(f, 4, 0);
    assert f[..4] == [f[0], f[1], f[2], f[3]];
    FourDigits(f[0], f[1], f[2], f[3]);
  }

  /** The header that the first four bytes of a queue make. */
  lemma PulledFields(f: seq<byte>)
    requires |f| >= 4
    ensures var w := Pulled(f);
            && Sadd(w) == f[2] as int % 4 * 0x100 + f[3] && NBytes(w) == f[1]
            && (ReadBit(w) <==> f[2] as int / 4 % 2 == 1)
            && (f[2] < 0x20 ==> !StartBit(w)) && (f[2] < 0x40 ==> !StopBit(w))
  {
    hide Pulled, Sadd, NBytes, ReadBit, StartBit, StopBit;
    FourBytes(f);
    WordFields(f[0], f[1], f[2], f[3]);
  }

  lemma ArmedIsUnmoved(s: Sys, p: Pos, spot: Spot, slave: Slave, goal: Goal)
    requires InTransfer(s, p, spot, slave, goal) && s.hw.phase == Idle
    ensures Armed(s.hw) && p.moved == 0 && p.cur.Send? && !OnBoundary(p, spot) && s.isr.None?
  {
    hide Framed, Aims, Plan;
    assert p.cur.bytes[..p.moved] == [];
  }

  /** The condition for a call to pull a header for a free bus: for every state in which no transfer runs or one is
      under way, every transaction and every interleaving, the call comes to its pull with a free bus and whole frames
      at the front of the queue if and only if no transfer was running when it was entered. */
  lemma {:induction false} PullIff(s: Sys, x: Xfer, run: seq<CallStep>, slave: Slave)
    requires (Rested(s) || Running(s, slave)) && Fits(s.fifo, x) && ValidCall(Caller(s, x, First), run, slave)
    requires CallRan(Caller(s, x, First), run, slave).pc == Loading
    ensures RestedWithFrames(CallRan(Caller(s, x, First), run, slave).sys) <==> Rested(s)
  {
    hide InTransfer, Further, FirstSegs, PlanOf, CallRan, ValidCall, Fits, Frames;
    var t := CallRan(Caller(s, x, First), run, slave).sys;
    if Rested(s) {
      var xs :| Quiet(s, xs);
      QuietCall(s, xs, x, run, slave);
      assert Quiet(t, xs + [x]) && xs + [x] != [];
    } else {
      var p, spot, goal :| InTransfer(s, p, spot, slave, goal) && Plain(spot);
      var q, n := OverlapStages(s, p, spot, slave, goal, x, run);
      PulledDuring(t, x, q, n, slave, Further(goal, FirstSegs(x), slave), Further(goal, PlanOf(x), slave));
    }
  }

  lemma PulledDuring(t: Sys, x: Xfer, q: Pos, n: Spot, slave: Slave, half: Goal, full: Goal)
    requires Pushed(t, x, q, n, slave, half, full)
    ensures !RestedWithFrames(t)
    ensures !InTransfer(t, q, n, slave, full) || !Plain(n) ==> !WholeFrames(t.fifo) && !Running(t, slave)
  {
    hide Frames, Queued, Cr2, InTransfer, Plain, SecondPart, WholeFrames;
    if InTransfer(t, q, n, slave, full) && Plain(n) {
      OneOrOther(t, slave);
    } else {
      NotWhole(t, x, half, full, slave);
    }
  }

  lemma NotWhole(t: Sys, x: Xfer, half: Goal, full: Goal, slave: Slave)
    requires Ending(t, full) || Split(t, x, half)
    ensures !RestedWithFrames(t) && !WholeFrames(t.fifo) && !Running(t, slave)
  {
    hide Frames, SecondPart, InTransfer;
    SecondPartBytes(if x.ReadReg? then x else ReadReg(0, 0, 0));
    assert !WholeFrames(t.fifo);
    forall q, n, goal
      ensures !InTransfer(t, q, n, slave, goal)
    {
      if InTransfer(t, q, n, slave, goal) {
        TransferUnsettled(t, q, n, slave, goal);
      }
    }
  }

  /** A transfer is under way that stands on a boundary. */
  ghost predicate RunningOnBoundary(s: Sys, slave: Slave) {
    exists p, spot, goal :: InTransfer(s, p, spot, slave, goal) && Plain(spot) && OnBoundary(p, spot)
  }

  /** What the call finds at the front of the queue: for every entry state, transaction and interleaving, whole frames
      if and only if no transfer was running when it was entered, or the transfer stands on a boundary at the pull. */
  lemma {:induction false} FrontIff(s: Sys, x: Xfer, run: seq<CallStep>, slave: Slave)
    requires (Rested(s) || Running(s, slave)) && Fits(s.fifo, x) && ValidCall(Caller(s, x, First), run, slave)
    requires CallRan(Caller(s, x, First), run, slave).pc == Loading
    ensures var t := CallRan(Caller(s, x, First), run, slave).sys;
            WholeFrames(t.fifo) <==> Rested(s) || RunningOnBoundary(t, slave)
  {
    hide InTransfer, Further, FirstSegs, PlanOf, CallRan, ValidCall, Fits, Frames;
    var t := CallRan(Caller(s, x, First), run, slave).sys;
    if Rested(s) {
      var xs :| Quiet(s, xs);
      QuietCall(s, xs, x, run, slave);
      assert Quiet(t, xs + [x]) && xs + [x] != [];
    } else {
      var p, spot, goal :| InTransfer(s, p, spot, slave, goal) && Plain(spot);
      var q, n := OverlapStages(s, p, spot, slave, goal, x, run);
      var full := Further(goal, PlanOf(x), slave);
      PulledDuring(t, x, q, n, slave, Further(goal, FirstSegs(x), slave), full);
      if InTransfer(t, q, n, slave, full) && Plain(n) {
        BoundaryIff(t, q, n, slave, full);
      }
      if RunningOnBoundary(t, slave) {
        BoundaryHasFrames(t, slave);
      }
    }
  }

  lemma BoundaryHasFrames(t: Sys, slave: Slave)
    requires RunningOnBoundary(t, slave)
    ensures WholeFrames(t.fifo) && Running(t, slave)
  {
    hide InTransfer, WholeFrames;
    var q, n, goal :| InTransfer(t, q, n, slave, goal) && Plain(n) && OnBoundary(q, n);
    BoundaryIff(t, q, n, slave, goal);
  }

  /** A read entered during a transfer: its frame is chained if and only if its second critical section runs before the
      handler has served the TC of its register half, which ends the transfer with STOP; otherwise it is split. */
  lemma {:induction false} ChainsIff(s: Sys, p: Pos, spot: Spot, slave: Slave, goal: Goal, x: Xfer, run: seq<CallStep>)
    requires InTransfer(s, p, spot, slave, goal) && Plain(spot) && Fits(s.fifo, x)
    requires ValidCall(Caller(s, x, First), run, slave) && CallRan(Caller(s, x, First), run, slave).pc == Second
    ensures goal.bus != []
    ensures var t := CallRan(Caller(s, x, First), run, slave);
            && ((exists q, n :: InTransfer(ThreadStep(t).sys, q, n, slave, Further(goal, PlanOf(x), slave)) && Plain(n))
                <==> !Settled(t.sys))
            && (Settled(t.sys) ==> Split(ThreadStep(t).sys, x, Further(goal, FirstSegs(x), slave)))
  {
    GoalHasStop(s, p, slave, goal);
    hide InTransfer, Further, FirstSegs, PlanOf, CallRan, ValidCall, Fits, Frames, Split, Ending;
    var q, n := StageRun(Caller(s, x, First), run, p, spot, slave, goal);
    var t := CallRan(Caller(s, x, First), run, slave);
    var half, full := Further(goal, FirstSegs(x), slave), Further(goal, PlanOf(x), slave);
    var u, k := PushesSecond(t, q, n, slave, goal);
    if Ending(t.sys, half) {
      EndingSettled(t.sys, half);
      SplitIsQuiet(ThreadStep(t).sys, x, half, slave);
    } else {
      TransferUnsettled(t.sys, q, n, slave, half);
    }
  }

  lemma EndingSettled(s: Sys, goal: Goal)
    requires Ending(s, goal)
    ensures Settled(s)
  {
  }

  lemma TransferUnsettled(s: Sys, p: Pos, spot: Spot, slave: Slave, goal: Goal)
    requires InTransfer(s, p, spot, slave, goal)
    ensures !Settled(s) && !Closing(s.hw, Shown(s.hw))
  {
    ActiveIsUnsettled(s, p, slave, goal);
  }

  lemma SplitIsQuiet(s: Sys, x: Xfer, half: Goal, slave: Slave)
    requires Split(s, x, half)
    ensures forall q, n, goal :: !InTransfer(s, q, n, slave, goal)
  {
    hide InTransfer;
    forall q, n, goal
      ensures !InTransfer(s, q, n, slave, goal)
    {
      if InTransfer(s, q, n, slave, goal) {
        TransferUnsettled(s, q, n, slave, goal);
      }
    }
  }

  // What the overlapping call puts on the bus.

  /** A plan launched from a free bus by a pulled header. */
  lemma {:induction false} PulledPlan(c: Caller, run: seq<CallStep>, segs: seq<Seg>, slave: Slave)
    requires c.pc == Loading && Closing(c.sys.hw, c.sys.hw.bus) && c.sys.hw.phase == Idle && c.sys.isr.None?
    requires segs != [] && AllWf(segs) && Pulled(c.sys.fifo) == segs[0].Header()
    requires Rest(c.sys.fifo, 4) == segs[0].Payload() + Stream(segs[1..])
    requires ValidCall(c, run, slave) && CallRan(c, run, slave).pc == Returned(true)
    ensures var t := CallRan(c, run, slave).sys;
            LaunchedPlan(t, segs) && t.hw.bus == c.sys.hw.bus && t.hw.heard == c.sys.hw.heard && t.mem == c.sys.mem
  {
    hide Pulled, Stream, StartBit, StopBit, Queued, Cr2, Sadd, ReadBit, NBytes;
    HeaderIsHeader(segs[0]);
    FreeLaunch(c.sys, c, run, slave);
  }

  /** With an empty queue: a START to address 0 with no data, and a STOP. */
  lemma {:induction false} EmptyCall(c: Caller, run: seq<CallStep>, after: seq<Step>, slave: Slave)
    requires c.pc == Loading && Closing(c.sys.hw, c.sys.hw.bus) && c.sys.hw.phase == Idle && c.sys.isr.None?
    requires c.sys.fifo == []
    requires ValidCall(c, run, slave) && CallRan(c, run, slave).pc == Returned(true)
    requires ValidRun(CallRan(c, run, slave).sys, after, slave)
    ensures var e, bus := Ran(CallRan(c, run, slave).sys, after, slave), c.sys.hw.bus + [Start(0, false), Stop];
            && e.hw.bus <= bus
            && (Stuck(e) ==> e.hw.bus == bus && e.mem == c.sys.mem && e.fifo == [] && e.hw.phase == Idle)
  {
    hide Stuck, CallRan, ValidCall, LaunchedPlan, Stepped, CanStep;
    var segs := [Send(0, [])];
    EmptyPull();
    assert segs[1..] == [];
    PulledPlan(c, run, segs, slave);
    var t := CallRan(c, run, slave).sys;
    PlanRun(t, segs, after, slave);
    assert Trace(segs, slave, t.hw.heard, true) == [Start(0, false)];
    assert t.hw.bus + [Start(0, false)] + [Stop] == t.hw.bus + [Start(0, false), Stop];
    assert Stores(t.mem, segs, slave, t.hw.heard) == t.mem;
  }

  lemma EmptyPull()
    ensures Pulled([]) == 0
  {
  }

  /** With a split read: a read of one byte without its register address, between a START and a STOP of its own. */
  lemma {:induction false} SplitCall(c: Caller, run: seq<CallStep>, after: seq<Step>, x: Xfer, slave: Slave)
    requires c.pc == Loading && Closing(c.sys.hw, c.sys.hw.bus) && c.sys.hw.phase == Idle && c.sys.isr.None?
    requires x.ReadReg? && c.sys.fifo == SecondPart(x)
    requires ValidCall(c, run, slave) && CallRan(c, run, slave).pc == Returned(true)
    requires ValidRun(CallRan(c, run, slave).sys, after, slave)
    ensures var e, k := Ran(CallRan(c, run, slave).sys, after, slave), c.sys.hw.heard;
            var bus := c.sys.hw.bus + [Start(x.dev, true), Rx(slave(k)), Stop];
            && e.hw.bus <= bus
            && (Stuck(e)
                ==> e.hw.bus == bus && e.mem == c.sys.mem[x.ptr := slave(k)] && e.fifo == [] && e.hw.phase == Idle)
  {
    hide Stuck, CallRan, ValidCall, LaunchedPlan, Stepped, CanStep, Queued, Cr2, Assembled;
    var segs := [Recv(x.dev, x.ptr)];
    assert segs[1..] == [];
    PulledWord(Cr2(1, true, x.dev), Queued(x.ptr));
    assert Queued(x.ptr) + [] == Queued(x.ptr);
    PulledPlan(c, run, segs, slave);
    var t := CallRan(c, run, slave).sys;
    PlanRun(t, segs, after, slave);
    assert Trace(segs, slave, t.hw.heard, true) == [Start(x.dev, true)] + [Rx(slave(t.hw.heard))];
    assert t.hw.bus + ([Start(x.dev, true)] + [Rx(slave(t.hw.heard))]) + [Stop]
        == t.hw.bus + [Start(x.dev, true), Rx(slave(t.hw.heard)), Stop];
    assert Stores(t.mem, segs, slave, t.hw.heard) == t.mem[x.ptr := slave(t.hw.heard)];
  }

  // A pull before the START of the running transfer is out.

  /** The first n queued bytes, zeros where the queue ends: what the handler sends for n bytes. */
  function Padded(data: seq<byte>, n: nat): (s: seq<byte>)
    ensures |s| == n
  {
    seq(n, i requires 0 <= i => if i < |data| then data[i] else 0)
  }

  /** The header that a call pulls from the middle of the pending transaction: made of that transaction's own bytes,
      and, for a write, of the byte count in the next header. */
  lemma TornHeader(s: Sys, p: Pos, spot: Spot, slave: Slave, goal: Goal)
    requires InTransfer(s, p, spot, slave, goal) && Plain(spot) && s.hw.phase == Idle
    requires spot.zs != []
    ensures p.cur.Send? && |s.fifo| >= 4
    ensures var w := Pulled(s.fifo);
            && !ReadBit(w) && !StartBit(w) && !StopBit(w)
            && (spot.part.Whole? ==> NBytes(w) == p.cur.bytes[1] && Sadd(w) == if spot.zs[0].WriteReg? then 2 else 1)
            && (spot.part.Half? ==> NBytes(w) == 0 && Sadd(w) == 0x104)
  {
    ArmedIsUnmoved(s, p, spot, slave, goal);
    QueueDuring(s, p, spot, slave, goal);
    hide Frames, InTransfer, Queued, Cr2, Pulled, Sadd, NBytes, ReadBit, StartBit, StopBit, Front, At;
    var f := s.fifo;
    TornBytes(f, p, spot);
    TornWord(f);
  }

  lemma TornBytes(f: seq<byte>, p: Pos, spot: Spot)
    requires At(p, spot) && Plain(spot) && p.moved == 0 && p.cur.Send? && spot.zs != []
    requires f == Front(p, spot) + Frames(spot.zs)
    ensures |f| >= 4
    ensures spot.part.Whole? ==> f[1] == p.cur.bytes[1] && f[2] == 0 && f[3] == if spot.zs[0].WriteReg? then 2 else 1
    ensures spot.part.Half? ==> f[1] == 0 && f[2] == 1 && f[3] == 4
  {
    UnmovedFront(p, spot);
    FrameBytes(spot.zs);
    hide Frames, Front, Plan, Queued, Cr2;
    if spot.part.Whole? {
      assert f[2] == Frames(spot.zs)[0] && f[3] == Frames(spot.zs)[1];
    }
  }

  lemma TornWord(f: seq<byte>)
    requires |f| >= 4 && f[2] <= 1
    ensures var w := Pulled(f);
            NBytes(w) == f[1] && Sadd(w) == f[2] as int * 0x100 + f[3] && !ReadBit(w) && !StartBit(w) && !StopBit(w)
  {
    hide Pulled, Sadd, NBytes, ReadBit, StartBit, StopBit;
    PulledFields(f);
  }

  lemma UnmovedFront(p: Pos, spot: Spot)
    requires At(p, spot) && Plain(spot) && p.moved == 0 && p.cur.Send?
    ensures spot.part.Whole? || spot.part.Half?
    ensures var a, b := Front(p, spot), p.cur.bytes;
            && (spot.part.Whole? ==> a == b && |b| == 2)
            && (spot.part.Half? ==> |a| >= 4 && a[1] == 0 && a[2] == 1 && a[3] == 4)
  {
    hide Queued, Cr2, Plan;
    HeaderBytes(1, true, p.cur.dev);
    assert p.cur.bytes[0..] == p.cur.bytes;
  }

  /** What such a header puts on the bus. */
  function TornTrace(before: seq<Event>, w: word, data: seq<byte>): seq<Event> {
    before + [Start(Sadd(w), false)] + Sent(Padded(data, NBytes(w)))
  }

  /** Software has moved j of the bytes that header w asks for. */
  ghost predicate TornAt(s: Sys, before: seq<Event>, w: word, data: seq<byte>, j: nat) {
    var g := Segment(before, Start(Sadd(w), false), NBytes(w), s.hw.heard);
    && !s.hw.stop && j <= g.n && s.fifo == Rest(data, j)
    && LatchHolds(s.hw, s.isr)
    && if s.hw.phase == Idle then j == 0 && Armed(s.hw) && s.hw.cr2 == w && s.hw.bus == before && s.isr.None?
       else SendingSegment(s.hw, g, Padded(data, g.n)[..j])
  }

  ghost predicate Torn(s: Sys, before: seq<Event>, w: word, data: seq<byte>, j: nat) {
    TornTrace(before, w, data) <= s.hw.bus || TornAt(s, before, w, data, j)
  }

  lemma BusGrows(s: Sys, step: Step, slave: Slave)
    requires CanStep(s, step)
    ensures s.hw.bus <= Stepped(s, step, slave).hw.bus
  {
    hide Enabled, Apply, Handled;
    match step
    case Hardware(e) => EventGrows(s.hw, e, slave);
    case Enter =>
    case Body => HandlerKeepsBus(s, s.isr.value);
  }

  lemma EventGrows(h: Hw, e: HwEvent, slave: Slave)
    requires Enabled(h, e)
    ensures h.bus <= Apply(h, e, slave).bus
  {
  }

  lemma HandlerKeepsBus(s: Sys, f: Status)
    ensures Handled(s, f).hw.bus == s.hw.bus
  {
    ChainKeepsBus(s);
    ChainKeepsBus(StoreByte(s));
    hide StopOrChain, Pulled;
  }

  lemma ChainKeepsBus(s: Sys)
    ensures StopOrChain(s).hw.bus == s.hw.bus
  {
    hide Pulled, StartBit, StopBit;
  }

  lemma TornHardware(s: Sys, e: HwEvent, before: seq<Event>, w: word, data: seq<byte>, j: nat, slave: Slave)
    requires TornAt(s, before, w, data, j) && Enabled(s.hw, e) && !ReadBit(w)
    ensures Torn(s.(hw := Apply(s.hw, e, slave)), before, w, data, j)
  {
    var all := Padded(data, NBytes(w));
    assert Sent([]) == [] && all[..0] == [] && all[..|all|] == all;
    if e == Shift {
      assert Sent(all[..j]) == Sent(all[..j][..j - 1]) + [Tx(all[..j][j - 1])];
    }
  }

  lemma TornBody(s: Sys, before: seq<Event>, w: word, data: seq<byte>, j: nat, slave: Slave) returns (k: nat)
    requires TornAt(s, before, w, data, j) && s.isr.Some?
    ensures Torn(Stepped(s, Body, slave), before, w, data, k)
  {
    hide Pulled, Assembled;
    var all := Padded(data, NBytes(w));
    k := j;
    if s.isr.value.txis {
      k := j + 1;
      assert all[..k] == all[..j] + [all[j]] && all[..k][..j] == all[..j];
      assert (if s.fifo == [] then 0 else s.fifo[0]) == all[j];
    } else {
      assert all[..j] == all;
      assert s.hw.bus == TornTrace(before, w, data);
      BusGrows(s, Body, slave);
    }
  }

  lemma TornStep(s: Sys, step: Step, before: seq<Event>, w: word, data: seq<byte>, j: nat, slave: Slave)
      returns (k: nat)
    requires Torn(s, before, w, data, j) && CanStep(s, step) && !ReadBit(w)
    ensures Torn(Stepped(s, step, slave), before, w, data, k)
  {
    k := j;
    BusGrows(s, step, slave);
    if !(TornTrace(before, w, data) <= s.hw.bus) {
      match step
      case Hardware(e) => TornHardware(s, e, before, w, data, j, slave);
      case Enter =>
      case Body => k := TornBody(s, before, w, data, j, slave);
    }
  }

  lemma {:induction false} TornRun(s: Sys, run: seq<Step>, before: seq<Event>, w: word, data: seq<byte>, j: nat,
                                   slave: Slave)
    returns (k: nat)
    requires Torn(s, before, w, data, j) && ValidRun(s, run, slave) && !ReadBit(w)
    ensures Torn(Ran(s, run, slave), before, w, data, k)
    decreases run
  {
    hide Torn, CanStep, Stepped, ReadBit;
    k := j;
    if run != [] {
      k := TornStep(s, run[0], before, w, data, j, slave);
      k := TornRun(Stepped(s, run[0], slave), run[1..], before, w, data, k, slave);
    }
  }

  /** The call's own START request, repeated while the torn transfer is pending or on the bus, does not change it. */
  lemma {:induction false} TornStarting(c: Caller, run: seq<CallStep>, before: seq<Event>, w: word, data: seq<byte>,
                                        j: nat, slave: Slave) returns (k: nat)
    requires c.pc == Starting || c.pc == Returned(true)
    requires Torn(c.sys, before, w, data, j) && ValidCall(c, run, slave) && !ReadBit(w)
    ensures Torn(CallRan(c, run, slave).sys, before, w, data, k)
    decreases run
  {
    hide Torn, CanStep, Stepped, ReadBit;
    k := j;
    if run != [] {
      if run[0].Engine? {
        k := TornStep(c.sys, run[0].step, before, w, data, j, slave);
      } else {
        TornSetStart(c.sys, before, w, data, j);
      }
      k := TornStarting(Called(c, run[0], slave), run[1..], before, w, data, k, slave);
    }
  }

  lemma TornSetStart(s: Sys, before: seq<Event>, w: word, data: seq<byte>, j: nat)
    requires Torn(s, before, w, data, j) && s.isr.None?
    ensures Torn(s.(hw := SetStart(s.hw)), before, w, data, j)
  {
  }

  lemma TornShows(s: Sys, before: seq<Event>, w: word, data: seq<byte>, j: nat)
    requires Torn(s, before, w, data, j)
    ensures var bus := TornTrace(before, w, data); s.hw.bus <= bus || bus <= s.hw.bus
    ensures Stuck(s) ==> TornTrace(before, w, data) <= s.hw.bus
  {
    var bus := TornTrace(before, w, data);
    if !(bus <= s.hw.bus) {
      var all := Padded(data, NBytes(w));
      if s.hw.phase != Idle {
        assert Sent(all[..j]) == Sent(all)[..j];
        if j > 0 {
          assert Sent(all[..j][..j - 1]) == Sent(all)[..j - 1];
        }
      }
      assert all[..|all|] == all;
      assert CanStep(s, Body) || CanStep(s, Enter) || CanStep(s, Hardware(Address)) || CanStep(s, Hardware(Request))
          || CanStep(s, Hardware(Shift)) || CanStep(s, Hardware(Complete));
    }
  }

  /** A call that finds BUSY clear because the START of the running transfer is not out yet, whatever transactions are
      pending: what goes out next is the header made of the pending transaction's own bytes. START goes to address 1 or
      2 for as many bytes as the value of a pending write (TornHeader), or to address 0x104 for none when a read is
      pending, and the bytes sent are the next queued ones, headers included. */
  lemma {:induction false} TornCall(c: Caller, p: Pos, spot: Spot, slave: Slave, goal: Goal,
                                    run: seq<CallStep>, after: seq<Step>)
    requires c.pc == Loading && InTransfer(c.sys, p, spot, slave, goal) && Plain(spot)
    requires c.sys.hw.phase == Idle && spot.zs != []
    requires ValidCall(ThreadStep(c), run, slave) && ValidRun(CallRan(ThreadStep(c), run, slave).sys, after, slave)
    ensures var e, w := Ran(CallRan(ThreadStep(c), run, slave).sys, after, slave), Pulled(c.sys.fifo);
            var bus := TornTrace(c.sys.hw.bus, w, c.sys.fifo[4..]);
            && (e.hw.bus <= bus || bus <= e.hw.bus)
            && (Stuck(e) ==> bus <= e.hw.bus)
  {
    var w, data, before := Pulled(c.sys.fifo), c.sys.fifo[4..], c.sys.hw.bus;
    TornHeader(c.sys, p, spot, slave, goal);
    ArmedIsUnmoved(c.sys, p, spot, slave, goal);
    TornLoads(c.sys, w);
    hide InTransfer, Torn, TornAt, Pulled, ReadBit, StartBit, StopBit, Stuck, TornTrace;
    var k := TornStarting(ThreadStep(c), run, before, w, data, 0, slave);
    k := TornRun(CallRan(ThreadStep(c), run, slave).sys, after, before, w, data, k, slave);
    TornShows(Ran(CallRan(ThreadStep(c), run, slave).sys, after, slave), before, w, data, k);
  }

  lemma TornLoads(s: Sys, w: word)
    requires Armed(s.hw) && s.isr.None? && |s.fifo| >= 4 && w == Pulled(s.fifo) && !StartBit(w) && !StopBit(w)
    ensures Torn(Loaded(s), s.hw.bus, w, s.fifo[4..], 0)
  {
    hide Pulled, StartBit, StopBit;
  }
}
