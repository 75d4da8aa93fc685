/** A call that pulls its header while a transfer runs: where the engine goes from there, for every place of the pull
    and every interleaving up to START in which the handler serves no TC. */
module I2cPull {
  import opened Words
  import opened Fifo
  import opened I2cBus
  import opened I2cEngine
  import opened I2cDecode
  import opened I2cCalls
  import opened I2cOverlap
  import opened I2cHeaders
  import opened I2cBusFacts

  // From the pull to START.

  /** The handler does not serve TC; it may serve TXIS and RXNE. */
  predicate Calm(c: Caller, run: seq<CallStep>, slave: Slave)
    requires ValidCall(c, run, slave)
    decreases run
  {
    run == []
    || ((run[0] == Engine(Body) ==> !c.sys.isr.value.tc) && Calm(Called(c, run[0], slave), run[1..], slave))
  }

  /** Segment g is being sent and CR2 holds the header of a START that is not requested yet; `goal` is where it will
      lead. */
  ghost predicate Feeding(s: Sys, g: Segment, loaded: seq<byte>, w: word, slave: Slave, goal: Goal) {
    && |loaded| <= g.n && !g.Reads() && (g.open.Start? || g.open.Restart?)
    && !s.hw.start && !s.hw.stop && s.hw.cr2 == w && SendingSegment(s.hw, g, loaded) && LatchHolds(s.hw, s.isr)
    && goal == Reached(g, loaded, 0, s.fifo, Some(w), s.mem, slave)
  }

  lemma FeedingStep(s: Sys, step: Step, g: Segment, loaded: seq<byte>, w: word, slave: Slave, goal: Goal)
    returns (more: seq<byte>)
    requires Feeding(s, g, loaded, w, slave, goal) && CanStep(s, step) && (step.Body? ==> !s.isr.value.tc)
    ensures Feeding(Stepped(s, step, slave), g, more, w, slave, goal)
  {
    more := loaded;
    match step
    case Hardware(e) =>
      hide Reached;
      SegmentStable(s.hw, e, g, slave, loaded, 0);
    case Enter =>
    case Body => more := FeedingLoad(s, g, loaded, w, slave, goal);
  }

  lemma FeedingLoad(s: Sys, g: Segment, loaded: seq<byte>, w: word, slave: Slave, goal: Goal) returns (more: seq<byte>)
    requires Feeding(s, g, loaded, w, slave, goal) && s.isr.Some? && !s.isr.value.tc
    ensures Feeding(Stepped(s, Body, slave), g, more, w, slave, goal)
  {
    hide Pulled;
    var b := Head(s.fifo);
    more := loaded + [b];
    LoadInSegment(s.hw, g, slave, loaded, b);
    assert Sent(more) == Sent(loaded) + [Tx(b)];
    hide InSegment;
  }

  lemma {:induction false} FeedingLaunch(c: Caller, run: seq<CallStep>, g: Segment, loaded: seq<byte>, w: word,
                                         slave: Slave, goal: Goal)
    requires c.pc == Starting && ValidCall(c, run, slave) && Calm(c, run, slave)
    requires CallRan(c, run, slave).pc == Returned(true) && Feeding(c.sys, g, loaded, w, slave, goal)
    ensures var u := CallRan(c, run, slave).sys;
            Heading(u, slave, goal) && |g.before| < |u.hw.bus| <= |g.before| + 1 + g.n
    decreases run
  {
    hide Feeding, Heading;
    if run != [] {
      var d := Called(c, run[0], slave);
      if run[0].Engine? {
        var more := FeedingStep(c.sys, run[0].step, g, loaded, w, slave, goal);
        FeedingLaunch(d, run[1..], g, more, w, slave, goal);
      } else {
        assert d.pc == Returned(true);
        assert run[1..] == [];
        FeedingStarts(c.sys, g, loaded, w, slave, goal);
      }
    }
  }

  lemma FeedingStarts(s: Sys, g: Segment, loaded: seq<byte>, w: word, slave: Slave, goal: Goal)
    requires Feeding(s, g, loaded, w, slave, goal) && s.isr.None?
    ensures var u := s.(hw := SetStart(s.hw));
            Heading(u, slave, goal) && |g.before| < |u.hw.bus| <= |g.before| + 1 + g.n
  {
    hide Reached;
    assert Doubled(s.(hw := SetStart(s.hw)), g, loaded, slave, goal);
  }

  /** With START pending already, the call's own request changes nothing unless that START goes out before. */
  lemma PendingLaunch(c: Caller, run: seq<CallStep>, slave: Slave) returns (out: bool, d: Caller, rest: seq<CallStep>)
    requires c.pc == Starting && ValidCall(c, run, slave) && Calm(c, run, slave) && Requesting(c.sys)
    requires CallRan(c, run, slave).pc == Returned(true)
    ensures !out ==> CallRan(c, run, slave).sys == c.sys
    ensures out ==>
              && d == c.(sys := Stepped(c.sys, Hardware(Address), slave)) && ValidCall(d, rest, slave)
              && Calm(d, rest, slave) && CallRan(d, rest, slave) == CallRan(c, run, slave)
  {
    d, rest := Called(c, run[0], slave), run[1..];
    out := run[0].Engine?;
    if out {
      assert run[0] == Engine(Hardware(Address));
    } else {
      assert d.pc == Returned(true);
      assert rest == [];
    }
  }

  /** The START that was pending has gone out with the new header. */
  lemma PendingOut(s: Sys, slave: Slave)
    requires Requesting(s) && !ReadBit(s.hw.cr2)
    ensures var w, g := s.hw.cr2, Segment(s.hw.bus, Opening(s.hw), NBytes(s.hw.cr2), s.hw.heard);
            Feeding(Stepped(s, Hardware(Address), slave), g, [], w, slave,
                    Reached(g, [], 0, s.fifo, Some(w), s.mem, slave))
  {
    assert Sent([]) == [];
  }

  // Where a launch leads, case by case.

  /** Some run of the engine comes to rest with this bus. */
  ghost predicate Ends(s: Sys, bus: seq<Event>, slave: Slave) {
    exists run :: ValidRun(s, run, slave) && Stuck(Ran(s, run, slave)) && Ran(s, run, slave).hw.bus == bus
  }

  lemma HeadingEnds(s: Sys, slave: Slave, goal: Goal, bus: seq<Event>)
    requires Heading(s, slave, goal)
    ensures Ends(s, bus, slave) <==> goal.bus == bus
  {
    hide Heading, Stuck, Ran, ValidRun;
    var end := SomeEnd(s, slave, goal);
    HeadingRun(s, end, slave, goal);
    if run :| ValidRun(s, run, slave) && Stuck(Ran(s, run, slave)) && Ran(s, run, slave).hw.bus == bus {
      HeadingRun(s, run, slave, goal);
    }
  }

  /** A transfer heading for `full` whose queue a call is about to pull from. */
  ghost predicate AtPull(t: Sys, q: Pos, n: Spot, slave: Slave, full: Goal) {
    InTransfer(t, q, n, slave, full) && Plain(n) && t.isr.None?
  }

  /** From the pull on, up to START. */
  ghost predicate Launching(t: Sys, c: Caller, run: seq<CallStep>, slave: Slave) {
    && c.pc == Starting && c.sys == Loaded(t) && ValidCall(c, run, slave) && Calm(c, run, slave)
    && CallRan(c, run, slave).pc == Returned(true)
  }

  /** The call's START follows the one of segment q on the bus, before any other: the header pulled is one for the next
      segment (and for q, if its START took it along), and what the segment still needs is repeated behind it. */
  predicate InStep(t: Sys, q: Pos, u: Sys) {
    && q.rest != [] && |q.g.before| < |u.hw.bus| <= |q.g.before| + 1 + q.cur.Units()
    && Addresses(Pulled(t.fifo), q.rest[0]) && (t.hw.start ==> Addresses(Pulled(t.fifo), q.cur))
    && Needed(q) <= Rest(t.fifo, 4)
  }

  /** The START of the last read is pending, and its pointer passes for its header. */
  predicate LastRead(t: Sys, q: Pos, u: Sys) {
    && t.hw.start && |u.hw.bus| <= |q.g.before| && q.cur.Recv? && q.rest == [] && Addresses(Pulled(t.fifo), q.cur)
  }

  /** A header pulled inside a sending segment requests neither START nor STOP. */
  lemma PulledInside(t: Sys, q: Pos, n: Spot, slave: Slave, full: Goal)
    requires AtPull(t, q, n, slave, full) && q.cur.Send? && q.rest != []
    ensures var w := Pulled(t.fifo);
            !StartBit(w) && !StopBit(w) && (q.moved < q.cur.Units() ==> !ReadBit(w)) && |t.fifo| >= 4
    ensures !q.g.Reads() && Placed(q) && Framed(t.fifo, q) && Aims(t.mem, q, slave, full)
  {
    hide Pulled, OnBus, Aims, Stream, StartBit, StopBit, ReadBit, LatchHolds;
    LongEnough(q, t.fifo);
    PulledBytes(t.fifo, q, n);
    PulledFields(t.fifo);
    SendsOnly(q);
  }

  lemma SendsOnly(q: Pos)
    requires Placed(q) && q.cur.Send?
    ensures !q.g.Reads() && (q.g.open.Start? || q.g.open.Restart?)
  {
  }

  lemma PulledBytes(f: seq<byte>, q: Pos, n: Spot)
    requires At(q, n) && Plain(n) && q.cur.Send? && q.rest != [] && q.moved <= q.cur.Units()
    requires f == Needed(q) + Stream(q.rest)
    ensures |f| >= 4 && f[2] <= 4 && (q.moved < q.cur.Units() ==> f[2] < 4)
  {
    NextHeader(q, n);
    var d, next := Needed(q), q.rest[0];
    hide At, Queued, Cr2, Stream;
    var tail := next.Payload() + Stream(q.rest[1..]);
    assert Stream(q.rest) == Queued(next.Header()) + tail by {
      StreamCons(q.rest);
    }
    var m: nat := next.Units();
    assert f == d + ([0, m as byte, if next.Recv? then 4 else 0, next.dev as byte] + tail);
  }

  lemma StreamCons(segs: seq<Seg>)
    requires segs != []
    ensures Stream(segs) == Queued(segs[0].Header()) + (segs[0].Payload() + Stream(segs[1..]))
  {
    hide Queued, Cr2;
  }

  lemma NextHeader(q: Pos, n: Spot)
    requires At(q, n) && Plain(n) && q.rest != []
    ensures var next := q.rest[0];
            1 <= next.Units() <= 2 && next.dev < 0x100
            && Queued(next.Header()) == [0, next.Units(), if next.Recv? then 4 else 0, next.dev]
  {
    hide Queued, Cr2;
    if !n.part.Half? {
      NoPlan(map[], k => 0, 0);
      PlanSplit(n.zs, []);
    }
    HeaderBytes(q.rest[0].Units(), q.rest[0].Recv?, q.rest[0].dev);
  }

  lemma LoadedFeeds(t: Sys, q: Pos, n: Spot, slave: Slave, full: Goal)
    requires AtPull(t, q, n, slave, full) && q.cur.Send? && q.rest != [] && !t.hw.start
    ensures Placed(q)
    ensures Feeding(Loaded(t), q.g, q.cur.bytes[..q.moved], Pulled(t.fifo), slave, Echoed(q, t.fifo, t.mem, slave))
  {
    PulledInside(t, q, n, slave, full);
    SendsOnly(q);
    hide Framed, Aims, Reached, Pulled, StartBit, StopBit, ReadBit;
  }

  lemma SaneLaunch(c: Caller, run: seq<CallStep>, slave: Slave)
    requires Sane(c.sys) && c.pc == Starting && ValidCall(c, run, slave) && CallRan(c, run, slave).pc == Returned(true)
    ensures var u := CallRan(c, run, slave).sys; Sane(u) && u.hw.start && c.sys.hw.bus <= u.hw.bus
    decreases run
  {
    hide Stepped, CanStep, Sane;
    if run != [] {
      var d := Called(c, run[0], slave);
      if run[0].Engine? {
        SaneStep(c.sys, run[0].step, slave);
        SaneLaunch(d, run[1..], slave);
      } else {
        assert d.pc == Returned(true);
        assert run[1..] == [];
        SaneStart(c.sys);
      }
    }
  }

  lemma SaneStart(s: Sys)
    requires Sane(s) && s.isr.None?
    ensures Sane(s.(hw := SetStart(s.hw)))
  {
  }

  /** In a transfer, and after the pull, unless a STOP request has been pulled on a free bus. */
  lemma SanePull(t: Sys, q: Pos, n: Spot, slave: Slave, full: Goal)
    requires AtPull(t, q, n, slave, full)
    ensures Sane(t) && |q.g.before| <= |t.hw.bus| && (!t.hw.start ==> |q.g.before| < |t.hw.bus|) && !t.hw.stop
    ensures t.hw.phase == Idle ==> t.hw.start && q.cur.Send?
    ensures !StopBit(Pulled(t.fifo)) || t.hw.phase != Idle ==> Sane(Loaded(t))
  {
    hide Framed, Aims, Pulled, StartBit, StopBit, Plan;
  }

  /** After the last segment no START belongs on the bus. */
  lemma NothingFollows(u: Sys, q: Pos, mem: Memory, slave: Slave, full: Goal)
    requires Sane(u) && u.hw.start && Placed(q) && q.rest == [] && Aims(mem, q, slave, full)
    requires |q.g.before| < |u.hw.bus|
    ensures !Ends(u, full.bus, slave)
  {
    var i := |u.hw.bus|;
    LastShows(q, mem, slave, full);
    assert Opens(u, i);
    hide Stuck, Sane, Aims, Placed;
    if run :| ValidRun(u, run, slave) && Stuck(Ran(u, run, slave)) && Ran(u, run, slave).hw.bus == full.bus {
      OpensRun(u, run, i, slave);
    }
  }

  lemma LastShows(q: Pos, mem: Memory, slave: Slave, full: Goal)
    requires Placed(q) && q.rest == [] && Aims(mem, q, slave, full)
    ensures forall j :: |q.g.before| < j < |full.bus| ==> !IsOpening(full.bus[j])
  {
    NoTrace(slave, q.g.k + q.cur.Heard());
    DataIsData(q.cur, slave, q.g.k);
    hide Trace, Stores;
    assert full.bus == q.g.before + [q.g.open] + q.cur.Data(slave, q.g.k) + [] + [Stop];
  }

  /** A pull while the START of segment q is pending. */
  lemma StartPending(t: Sys, q: Pos, n: Spot, slave: Slave, full: Goal)
    requires AtPull(t, q, n, slave, full) && t.hw.start
    ensures q.moved == 0 && t.hw.bus == q.g.before && t.hw.heard == q.g.k && t.hw.left == 0 && t.hw.txdr.None?
    ensures !t.hw.stop && !t.hw.Flagged() && t.fifo == q.cur.Payload() + Stream(q.rest)
    ensures q.g.open == (if t.hw.phase == Idle then Start(q.cur.dev, q.cur.Recv?) else Restart(q.cur.dev, q.cur.Recv?))
    ensures Aims(t.mem, q, slave, full) && Placed(q) && Framed(t.fifo, q)
    ensures !StopBit(Pulled(t.fifo)) ==> Requesting(Loaded(t))
  {
    StartedUnmoved(t.hw, q, slave);
    hide Aims, Pulled, StartBit, StopBit, Plan, Queued, Stream, Cr2;
    assert q.cur.Send? ==> q.cur.bytes[0..] == q.cur.bytes;
  }

  /** What the goal looks like from an unmoved segment on. */
  lemma UnmovedShows(q: Pos, mem: Memory, slave: Slave, full: Goal)
    requires Aims(mem, q, slave, full)
    ensures full.bus == q.g.before + ([q.g.open] + (q.cur.Data(slave, q.g.k)
                                                    + (Trace(q.rest, slave, q.g.k + q.cur.Heard(), false) + [Stop])))
  {
    hide Stores, Trace, HeardBy;
    Joins(q.g.before, [], [], [q.g.open], q.cur.Data(slave, q.g.k),
          Trace(q.rest, slave, q.g.k + q.cur.Heard(), false), [Stop]);
    hide Aims;
    var tail := [q.g.open] + q.cur.Data(slave, q.g.k) + Trace(q.rest, slave, q.g.k + q.cur.Heard(), false);
    assert full.bus == q.g.before + tail + [Stop];
  }

  /** The START goes out with the new header. */
  lemma SwallowedLaunch(t: Sys, q: Pos, n: Spot, slave: Slave, full: Goal)
    requires AtPull(t, q, n, slave, full) && t.hw.start && !StopBit(Pulled(t.fifo))
    ensures Ends(Loaded(t), full.bus, slave) <==> LastRead(t, q, Loaded(t))
  {
    hide Active, Requesting, StartGoal, Heading, Ends, Serves, Trace, Addresses, Pulled, Stream, Aims, At, Placed;
    hide Framed;
    hide StartBit, StopBit, Loaded;
    StartPending(t, q, n, slave, full);
    SwallowedShows(t, q, n, slave, full);
    RequestHeads(Loaded(t), slave);
    HeadingEnds(Loaded(t), slave, StartGoal(Loaded(t), slave), full.bus);
    SwallowedIff(q, n, t.mem, slave, q.g.k);
    LoadedBus(t);
  }

  lemma SwallowedShows(t: Sys, q: Pos, n: Spot, slave: Slave, full: Goal)
    requires AtPull(t, q, n, slave, full) && t.hw.start && !StopBit(Pulled(t.fifo))
    ensures StartGoal(Loaded(t), slave).bus == full.bus
            <==> Serves(t.fifo, q.cur, Trace(q.rest, slave, q.g.k + q.cur.Heard(), false) + [Stop], t.mem, slave, q.g.k)
  {
    StartPending(t, q, n, slave, full);
    UnmovedShows(q, t.mem, slave, full);
    hide AtPull, Trace, Segmented, Pulled, Sadd, ReadBit, NBytes, StartBit, StopBit, Stream, Aims, Placed, Framed;
    var u, w := Loaded(t), Pulled(t.fifo);
    var e := Segmented(ReadBit(w), NBytes(w), Rest(t.fifo, 4), None, t.mem, slave, q.g.k).events;
    var data := q.cur.Data(slave, q.g.k) + (Trace(q.rest, slave, q.g.k + q.cur.Heard(), false) + [Stop]);
    assert StartGoal(u, slave).bus == q.g.before + ([Opening(u.hw)] + e);
    if StartGoal(u, slave).bus == full.bus {
      SameRest(q.g.before, [Opening(u.hw)] + e, q.g.before, [q.g.open] + data);
    }
    Headed(Opening(u.hw), e, q.g.open, data);
  }

  /** A STOP request that was pulled with it goes first. */
  lemma StopLaunch(t: Sys, q: Pos, n: Spot, c: Caller, run: seq<CallStep>, i: nat, slave: Slave, full: Goal)
    requires AtPull(t, q, n, slave, full) && Launching(t, c, run, slave) && StopBit(Pulled(t.fifo))
    requires t.hw.phase != Idle && i == |t.hw.bus| + t.hw.left && i < |full.bus| && full.bus[i] != Stop
    ensures !Ends(CallRan(c, run, slave).sys, full.bus, slave)
  {
    SanePull(t, q, n, slave, full);
    StoppingStretch(t);
    hide AtPull, Stretch, Stuck, Pulled;
    StretchLaunch(c, run, |t.hw.bus|, i, true, slave);
    var u := CallRan(c, run, slave).sys;
    if after :| ValidRun(u, after, slave) && Stuck(Ran(u, after, slave)) && Ran(u, after, slave).hw.bus == full.bus {
      StretchRun(u, after, |t.hw.bus|, i, true, slave);
    }
  }

  lemma StoppingStretch(t: Sys)
    requires Sane(Loaded(t)) && t.hw.phase != Idle && StopBit(Pulled(t.fifo))
    ensures Stretch(Loaded(t), |t.hw.bus|, |t.hw.bus| + t.hw.left, true)
  {
    hide Pulled, StartBit, StopBit;
  }

  lemma {:induction false} StretchLaunch(c: Caller, run: seq<CallStep>, base: nat, i: nat, halting: bool, slave: Slave)
    requires c.pc == Starting && ValidCall(c, run, slave) && CallRan(c, run, slave).pc == Returned(true)
    requires Stretch(c.sys, base, i, halting)
    ensures Stretch(CallRan(c, run, slave).sys, base, i, halting)
    decreases run
  {
    hide Stepped, CanStep, Stretch;
    if run != [] {
      var d := Called(c, run[0], slave);
      if run[0].Engine? {
        StretchStep(c.sys, run[0].step, base, i, halting, slave);
        StretchLaunch(d, run[1..], base, i, halting, slave);
      } else {
        assert d.pc == Returned(true);
        assert run[1..] == [];
        StretchStart(c.sys, base, i, halting);
      }
    }
  }

  lemma StretchStart(s: Sys, base: nat, i: nat, halting: bool)
    requires Stretch(s, base, i, halting) && s.isr.None?
    ensures Stretch(s.(hw := SetStart(s.hw)), base, i, halting)
  {
  }

  lemma LoadedBus(t: Sys)
    ensures Loaded(t).hw.bus == t.hw.bus
  {
    hide Pulled, StartBit, StopBit;
  }

  lemma TornIff(t: Sys, q: Pos, n: Spot, g: Segment, slave: Slave, full: Goal)
    requires AtPull(t, q, n, slave, full) && q.cur.Send? && q.rest != [] && t.hw.start && !ReadBit(Pulled(t.fifo))
    requires g == Segment(t.hw.bus, Opening(Loaded(t).hw), NBytes(Pulled(t.fifo)), t.hw.heard)
    ensures var w := Pulled(t.fifo);
            var goal := Reached(g, [], 0, Rest(t.fifo, 4), Some(w), t.mem, slave);
            && (goal.bus == full.bus <==>
                  Addresses(w, q.cur) && Addresses(w, q.rest[0]) && Needed(q) <= Rest(t.fifo, 4))
            && (goal.bus == full.bus ==> goal == full)
  {
    StartPending(t, q, n, slave, full);
    PulledInside(t, q, n, slave, full);
    var w := Pulled(t.fifo);
    var goal := Reached(g, [], 0, Rest(t.fifo, 4), Some(w), t.mem, slave);
    hide AtPull, Pulled, StartBit, ReadBit, Framed, Aims, Needed, Segmented, Trace;
    if Addresses(w, q.cur) {
      assert g == q.g;
      assert q.cur.bytes[..0] == [];
      EchoIff(q, t.fifo, t.mem, slave, full);
    } else if goal.bus == full.bus {
      UnmovedShows(q, t.mem, slave, full);
      TornCount(q, g, w, t, slave, full);
    }
  }

  lemma TornCount(q: Pos, g: Segment, w: word, t: Sys, slave: Slave, full: Goal)
    requires Placed(q) && q.cur.Send? && g.before == q.g.before && g.n == NBytes(w) && !g.Reads()
    requires full.bus == q.g.before + ([q.g.open] + (q.cur.Data(slave, q.g.k)
                                                     + (Trace(q.rest, slave, q.g.k + q.cur.Heard(), false) + [Stop])))
    requires Reached(g, [], 0, Rest(t.fifo, 4), Some(w), t.mem, slave).bus == full.bus
    ensures g.open == q.g.open && g.n == q.cur.Units()
  {
    hide Segmented, Trace;
    var e := Segmented(false, g.n, Rest(t.fifo, 4), Some(w), t.mem, slave, g.k).events;
    var more := Trace(q.rest, slave, q.g.k + q.cur.Heard(), false) + [Stop];
    assert Sent([]) + e == e;
    SameRest(q.g.before, [g.open] + e, q.g.before, [q.g.open] + (q.cur.Data(slave, q.g.k) + more));
    Headed(g.open, e, q.g.open, q.cur.Data(slave, q.g.k) + more);
    SegmentedCounts(false, g.n, Rest(t.fifo, 4), Some(w), t.mem, slave, g.k);
    TraceOpens(q.rest, slave, q.g.k + q.cur.Heard());
    DataIsData(q.cur, slave, q.g.k);
    SameCount(e, g.n, q.cur.Units());
  }

  /** Where the engine goes after a pull inside a sending segment: the queue is decoded from its fifth byte on, and the
      header pulled comes where the call's START goes out. */
  function EarlyGoal(t: Sys, u: Sys, q: Pos, slave: Slave): Goal
    requires Placed(q) && q.cur.Send?
  {
    if !t.hw.start then Echoed(q, t.fifo, t.mem, slave)
    else if |u.hw.bus| == |t.hw.bus| then StartGoal(Loaded(t), slave)
    else Reached(TornSegment(t), [], 0, Rest(t.fifo, 4), Some(Pulled(t.fifo)), t.mem, slave)
  }

  /** The segment that a pending START opens with the header pulled. */
  function TornSegment(t: Sys): Segment {
    Segment(t.hw.bus, Opening(Loaded(t).hw), NBytes(Pulled(t.fifo)), t.hw.heard)
  }

  /** Where a launch stands at its START. */
  ghost predicate StartsAt(t: Sys, u: Sys, q: Pos) {
    var n := if t.hw.start then NBytes(Pulled(t.fifo)) else q.cur.Units();
    if t.hw.start && |u.hw.bus| == |t.hw.bus| then u == Loaded(t) && u.hw.bus == q.g.before
    else |q.g.before| < |u.hw.bus| <= |q.g.before| + 1 + n
  }

  lemma EarlyHeads(t: Sys, q: Pos, n: Spot, c: Caller, run: seq<CallStep>, slave: Slave, full: Goal)
    requires AtPull(t, q, n, slave, full) && Launching(t, c, run, slave) && q.cur.Send? && q.rest != []
    ensures Placed(q)
    ensures var u := CallRan(c, run, slave).sys; Heading(u, slave, EarlyGoal(t, u, q, slave)) && StartsAt(t, u, q)
  {
    PulledInside(t, q, n, slave, full);
    if t.hw.start {
      PendingHeads(t, q, n, c, run, slave, full);
    } else {
      LoadedFeeds(t, q, n, slave, full);
      assert q.g.n == q.cur.Units();
      hide AtPull, Feeding, Heading, Pulled, Echoed, Framed, Aims, Calm, Loaded, Placed;
      FeedingLaunch(c, run, q.g, q.cur.bytes[..q.moved], Pulled(t.fifo), slave, Echoed(q, t.fifo, t.mem, slave));
    }
  }

  lemma PendingHeads(t: Sys, q: Pos, n: Spot, c: Caller, run: seq<CallStep>, slave: Slave, full: Goal)
    requires AtPull(t, q, n, slave, full) && Launching(t, c, run, slave) && q.cur.Send? && q.rest != [] && t.hw.start
    ensures Placed(q)
    ensures var u := CallRan(c, run, slave).sys; Heading(u, slave, EarlyGoal(t, u, q, slave)) && StartsAt(t, u, q)
  {
    hide AtPull, Loaded, Heading, Pulled, Framed, Aims, StartBit, StopBit, ReadBit, Requesting, StartGoal, NBytes;
    hide Placed, Stream;
    StartPending(t, q, n, slave, full);
    PulledInside(t, q, n, slave, full);
    assert q.cur.Units() > 0 by {
      UnitsAtPull(t, q, n, slave, full);
    }
    LoadedBus(t);
    RequestHeads(Loaded(t), slave);
    LoadedParts(t);
    var out, d, rest := PendingLaunch(c, run, slave);
    if out {
      var w, g := Pulled(t.fifo), TornSegment(t);
      PendingOut(Loaded(t), slave);
      hide Feeding, Reached, Calm, Stepped, Placed;
      FeedingLaunch(d, rest, g, [], w, slave, Reached(g, [], 0, Rest(t.fifo, 4), Some(w), t.mem, slave));
    }
  }

  lemma UnitsAtPull(t: Sys, q: Pos, n: Spot, slave: Slave, full: Goal)
    requires AtPull(t, q, n, slave, full)
    ensures q.cur.Units() > 0
  {
    hide Active, Plan;
    SomeUnits(q, n);
  }

  lemma LoadedParts(t: Sys)
    ensures var s := Loaded(t);
            s.fifo == Rest(t.fifo, 4) && s.mem == t.mem && s.hw.cr2 == Pulled(t.fifo) && s.hw.heard == t.hw.heard
  {
    hide Pulled, StartBit, StopBit;
  }

  /** That is right exactly if the call is in step. */
  lemma EarlyLaunch(t: Sys, q: Pos, n: Spot, c: Caller, run: seq<CallStep>, slave: Slave, full: Goal)
    requires AtPull(t, q, n, slave, full) && Launching(t, c, run, slave) && q.cur.Send? && q.rest != []
    ensures var u := CallRan(c, run, slave).sys;
            (Ends(u, full.bus, slave) <==> InStep(t, q, u)) && (InStep(t, q, u) ==> Heading(u, slave, full))
  {
    var u := CallRan(c, run, slave).sys;
    PulledInside(t, q, n, slave, full);
    EarlyHeads(t, q, n, c, run, slave, full);
    hide AtPull, Launching, Heading, Pulled, Framed, Aims, Placed, Ends, StartBit, StopBit, ReadBit, Needed, Addresses;
    hide NBytes;
    hide Loaded, Echoed;
    HeadingEnds(u, slave, EarlyGoal(t, u, q, slave), full.bus);
    if !t.hw.start {
      EchoIff(q, t.fifo, t.mem, slave, full);
    } else if |u.hw.bus| == |t.hw.bus| {
      SwallowedLaunch(t, q, n, slave, full);
    } else {
      TornRight(t, q, n, slave, full);
    }
  }

  lemma TornRight(t: Sys, q: Pos, n: Spot, slave: Slave, full: Goal)
    requires AtPull(t, q, n, slave, full) && q.cur.Send? && q.rest != [] && t.hw.start
    ensures var w := Pulled(t.fifo);
            var goal := Reached(TornSegment(t), [], 0, Rest(t.fifo, 4), Some(w), t.mem, slave);
            && (goal.bus == full.bus <==>
                  Addresses(w, q.cur) && Addresses(w, q.rest[0]) && Needed(q) <= Rest(t.fifo, 4))
            && (goal.bus == full.bus ==> goal == full)
            && (Addresses(w, q.cur) ==> NBytes(w) == q.cur.Units())
  {
    StartPending(t, q, n, slave, full);
    PulledInside(t, q, n, slave, full);
    SomeUnits(q, n);
    hide AtPull, Loaded, Pulled, Framed, Aims, Needed, Reached;
    TornIff(t, q, n, TornSegment(t), slave, full);
  }

  /** Like Pending, before START is requested. */
  ghost predicate Awaiting(s: Sys, base: nat, i: nat, w: word) {
    var h := s.hw;
    && Sane(s) && base <= i && base <= |h.bus| <= i && (forall j :: base <= j < |h.bus| ==> IsData(h.bus[j]))
    && h.phase != Idle && |h.bus| + h.left == i && !h.start && !h.stop && h.cr2 == w
  }

  lemma AwaitingStep(s: Sys, step: Step, base: nat, i: nat, w: word, slave: Slave)
    requires Awaiting(s, base, i, w) && CanStep(s, step) && (step.Body? ==> !s.isr.value.tc)
    ensures Awaiting(Stepped(s, step, slave), base, i, w)
  {
    hide Pulled, Sadd, ReadBit, NBytes;
    SaneStep(s, step, slave);
  }

  lemma {:induction false} PendingThrough(c: Caller, run: seq<CallStep>, base: nat, i: nat, w: word, slave: Slave)
    requires c.pc == Starting && ValidCall(c, run, slave) && Calm(c, run, slave)
    requires CallRan(c, run, slave).pc == Returned(true)
    requires Awaiting(c.sys, base, i, w) || Pending(c.sys, base, i, w)
    ensures Pending(CallRan(c, run, slave).sys, base, i, w)
    decreases run
  {
    hide Awaiting, Pending, Stepped, CanStep;
    if run != [] {
      var d := Called(c, run[0], slave);
      if run[0].Thread? {
        assert d.pc == Returned(true);
        assert run[1..] == [];
        PendingStart(c.sys, base, i, w);
      } else {
        if Awaiting(c.sys, base, i, w) {
          AwaitingStep(c.sys, run[0].step, base, i, w, slave);
        } else {
          PendingStep(c.sys, run[0].step, base, i, w, slave);
        }
        PendingThrough(d, run[1..], base, i, w, slave);
      }
    }
  }

  lemma PendingStart(s: Sys, base: nat, i: nat, w: word)
    requires (Awaiting(s, base, i, w) || Pending(s, base, i, w)) && s.isr.None?
    ensures Pending(s.(hw := SetStart(s.hw)), base, i, w)
  {
    hide Sadd, ReadBit, NBytes;
  }

  lemma {:induction false} BusRun(s: Sys, run: seq<Step>, slave: Slave)
    requires Sane(s) && ValidRun(s, run, slave)
    ensures s.hw.bus <= Ran(s, run, slave).hw.bus
    decreases run
  {
    hide Sane;
    if run != [] {
      SaneStep(s, run[0], slave);
      BusRun(Stepped(s, run[0], slave), run[1..], slave);
    }
  }

  /** A read, and the write part that follows it. */
  lemma ReadShows(q: Pos, n: Spot, mem: Memory, slave: Slave, full: Goal)
    requires At(q, n) && Plain(n) && Placed(q) && q.cur.Recv? && q.rest != [] && Aims(mem, q, slave, full)
    ensures var i, next := |q.g.before|, q.rest[0];
            && next.Send? && i + 3 + next.Units() < |full.bus|
            && full.bus[i] == q.g.open && full.bus[i + 1].Rx? && full.bus[i + 2] == Restart(next.dev, false)
            && !IsData(full.bus[i + 3 + next.Units()])
            && forall j :: i + 3 <= j < i + 3 + next.Units() ==> IsData(full.bus[j])
  {
    hide Trace, Aims, Plan, At;
    var next, k := q.rest[0], q.g.k + 1;
    WriteFollows(q, n);
    UnmovedShows(q, mem, slave, full);
    TraceOpens(q.rest[1..], slave, k);
    DataIsData(next, slave, k);
    var more := Trace(q.rest[1..], slave, k, false) + [Stop];
    assert q.rest == [next] + q.rest[1..];
    TraceCons(next, q.rest[1..], slave, k, false);
    Joins([Restart(next.dev, false)], next.Data(slave, k), [], Trace(q.rest[1..], slave, k, false), [], [], [Stop]);
    assert Trace(q.rest, slave, k, false) + [Stop] == [Restart(next.dev, false)] + (next.Data(slave, k) + more);
    ReadThenWrite(full.bus, q.g.before, q.g.open, Rx(slave(q.g.k)), Restart(next.dev, false), next.Data(slave, k),
                  more);
  }

  lemma WriteFollows(q: Pos, n: Spot)
    requires At(q, n) && Plain(n) && q.cur.Recv? && q.rest != []
    ensures q.rest[0].Send?
  {
    NoPlan(map[], k => 0, 0);
    PlanSplit(n.zs, []);
  }

  lemma ReadThenWrite(bus: seq<Event>, b: seq<Event>, o: Event, r: Event, x: Event, data: seq<Event>, more: seq<Event>)
    requires bus == b + ([o] + ([r] + ([x] + (data + more)))) && Counted(more, 0)
    requires forall j :: 0 <= j < |data| ==> IsData(data[j])
    ensures var i := |b|;
            && i + 3 + |data| < |bus| && bus[i] == o && bus[i + 1] == r && bus[i + 2] == x
            && !IsData(bus[i + 3 + |data|]) && forall j :: i + 3 <= j < i + 3 + |data| ==> IsData(bus[j])
  {
    var front := b + [o, r, x];
    assert bus == front + data + more;
    forall j | |front| <= j < |front| + |data|
      ensures IsData(bus[j])
    {
      assert bus[j] == data[j - |front|];
    }
  }

  /** A pull while the START of a read is pending that something follows. */
  lemma ReadTorn(t: Sys, q: Pos, n: Spot, c: Caller, run: seq<CallStep>, slave: Slave, full: Goal)
    requires AtPull(t, q, n, slave, full) && Launching(t, c, run, slave) && !StopBit(Pulled(t.fifo))
    requires q.cur.Recv? && q.rest != [] && t.hw.start
    ensures !Ends(CallRan(c, run, slave).sys, full.bus, slave)
  {
    StartPending(t, q, n, slave, full);
    hide AtPull, Pulled, Sadd, ReadBit, NBytes, StopBit, Aims, Framed, Placed, Stream, Requesting, Loaded, Calm, Ends;
    var out, d, rest := PendingLaunch(c, run, slave);
    if out {
      ReadTornEnds(t, q, n, d, rest, slave, full);
    } else {
      SwallowedLaunch(t, q, n, slave, full);
    }
  }

  lemma ReadTornEnds(t: Sys, q: Pos, n: Spot, d: Caller, rest: seq<CallStep>, slave: Slave, full: Goal)
    requires AtPull(t, q, n, slave, full) && !StopBit(Pulled(t.fifo)) && q.cur.Recv? && q.rest != [] && t.hw.start
    requires d.pc == Starting && Requesting(Loaded(t)) && d.sys == Stepped(Loaded(t), Hardware(Address), slave)
    requires ValidCall(d, rest, slave) && Calm(d, rest, slave) && CallRan(d, rest, slave).pc == Returned(true)
    ensures !Ends(CallRan(d, rest, slave).sys, full.bus, slave)
  {
    hide Active, At, Aims, Framed, Stream, Requesting, Loaded, Calm, Pending, Awaiting, Sane, Stuck, Stepped, Opening;
    hide Pulled, Sadd, ReadBit, NBytes, StopBit, StartBit;
    StartPending(t, q, n, slave, full);
    SanePull(t, q, n, slave, full);
    ReadTornOut(t, q, d, slave);
    ReadShows(q, n, t.mem, slave, full);
    OpeningDirection(t);
    hide Placed, InTransfer, AtPull;
    var u, w, i := CallRan(d, rest, slave).sys, Pulled(t.fifo), |q.g.before| + 1;
    SaneLaunch(d, rest, slave);
    PendingThrough(d, rest, i, i + NBytes(w), w, slave);
    if after :| ValidRun(u, after, slave) && Stuck(Ran(u, after, slave)) && Ran(u, after, slave).hw.bus == full.bus {
      BusRun(u, after, slave);
      PendingRun(u, after, i, i + NBytes(w), w, slave);
    }
  }

  lemma OpeningDirection(t: Sys)
    ensures Opening(Loaded(t).hw).rd == ReadBit(Pulled(t.fifo))
  {
    hide Pulled, Sadd, ReadBit, StartBit, StopBit;
  }

  lemma ReadTornOut(t: Sys, q: Pos, d: Caller, slave: Slave)
    requires Requesting(Loaded(t)) && Sane(Loaded(t)) && t.hw.bus == q.g.before
    requires d.sys == Stepped(Loaded(t), Hardware(Address), slave)
    ensures var w, i := Pulled(t.fifo), |q.g.before| + 1;
            && Awaiting(d.sys, i, i + NBytes(w), w) && Sane(d.sys)
            && |d.sys.hw.bus| == i && d.sys.hw.bus[i - 1] == Opening(Loaded(t).hw)
  {
    hide Pulled, Sadd, ReadBit, NBytes, StartBit, StopBit;
    SaneStep(Loaded(t), Hardware(Address), slave);
  }

  // A pull inside a read segment: the four bytes pulled are the pointer that the segment still needs.

  ghost predicate AtRead(t: Sys, q: Pos, n: Spot, slave: Slave, full: Goal) {
    AtPull(t, q, n, slave, full) && q.cur.Recv? && q.rest != [] && q.moved == 0 && !t.hw.start
  }

  lemma ReadPull(t: Sys, q: Pos, n: Spot, slave: Slave, full: Goal)
    requires AtRead(t, q, n, slave, full)
    ensures var w, i := Pulled(t.fifo), |q.g.before| + 1;
            && w == q.cur.ptr && |t.fifo| >= 4 && Rest(t.fifo, 4) == Stream(q.rest)
            && t.hw.phase != Idle && |t.hw.bus| + t.hw.left == i + 1 && !t.hw.stop && At(q, n) && Plain(n)
            && Sane(Loaded(t)) && Placed(q) && Aims(t.mem, q, slave, full)
            && (!StopBit(w) ==> Awaiting(Loaded(t), i, i + 1, w) || Pending(Loaded(t), i, i + 1, w))
  {
    SanePull(t, q, n, slave, full);
    PulledWord(q.cur.ptr, Stream(q.rest));
    hide Pulled, Queued, Aims, StartBit, StopBit, Plan, Sadd, ReadBit, NBytes;
    assert t.hw.bus == q.g.before + [q.g.open] + Received(slave, q.g.k, if t.hw.rxne then 1 else 0);
  }

  /** What has been paid in full, and 4 more once the START that came with the pointer is out. */
  lemma ReadPaid(t: Sys, q: Pos, n: Spot, slave: Slave, full: Goal)
    requires AtRead(t, q, n, slave, full)
    ensures Paid(t) == Costs(full.bus)
    ensures StartBit(Pulled(t.fifo)) ==> Paid(Loaded(t)) == Costs(full.bus)
  {
    ReadPull(t, q, n, slave, full);
    UnmovedShows(q, t.mem, slave, full);
    var k := q.g.k + 1;
    var data, more := q.cur.Data(slave, q.g.k), Trace(q.rest, slave, k, false);
    DataCosts(q.cur, slave, q.g.k);
    TraceCosts(q.rest, slave, k);
    OneCost(q.g.open);
    OneCost(Stop);
    CostsAppend(q.g.before, [q.g.open] + (data + (more + [Stop])));
    CostsAppend([q.g.open], data + (more + [Stop]));
    CostsAppend(data, more + [Stop]);
    CostsAppend(more, [Stop]);
    hide Costs, Pulled, Queued, Aims, StartBit, StopBit, Plan, Trace, Stream;
    var shown := Received(slave, q.g.k, if t.hw.rxne then 1 else 0);
    assert t.hw.bus == q.g.before + ([q.g.open] + shown);
    CostsAppend(q.g.before, [q.g.open] + shown);
    CostsAppend([q.g.open], shown);
    ArrivedCost(slave, q.g.k);
  }

  lemma ArrivedCost(slave: Slave, k: nat)
    ensures Costs(Received(slave, k, 0)) == 0 && Costs(Received(slave, k, 1)) == 4
  {
    assert Received(slave, k, 1) == [Rx(slave(k))];
    OneCost(Rx(slave(k)));
  }

  lemma {:induction false} PaidLaunch(c: Caller, run: seq<CallStep>, base: nat, i: nat, w: word, paid: int,
                                      slave: Slave)
    requires c.pc == Starting && ValidCall(c, run, slave) && Calm(c, run, slave)
    requires CallRan(c, run, slave).pc == Returned(true)
    requires Awaiting(c.sys, base, i, w)
             || (Pending(c.sys, base, i, w) && Paid(c.sys) >= paid && (|c.sys.hw.bus| > i ==> !c.sys.hw.start))
    ensures var u := CallRan(c, run, slave).sys; |u.hw.bus| > i ==> Paid(u) >= paid + 4
    decreases run
  {
    hide Pending, Stepped, CanStep, Paid, Sane;
    if run != [] {
      var d := Called(c, run[0], slave);
      if run[0].Thread? {
        assert d.pc == Returned(true);
        assert run[1..] == [];
        PaidStart(c.sys);
      } else {
        if Awaiting(c.sys, base, i, w) {
          AwaitingStep(c.sys, run[0].step, base, i, w, slave);
        } else {
          PendingStep(c.sys, run[0].step, base, i, w, slave);
          StartGone(c.sys, run[0].step, base, i, w, slave);
        }
        hide Awaiting;
        PaidLaunch(d, run[1..], base, i, w, paid, slave);
      }
    }
  }

  lemma PaidStart(s: Sys)
    ensures !s.hw.start ==> Paid(s.(hw := SetStart(s.hw))) == Paid(s) + 4
  {
  }

  lemma StartGone(s: Sys, step: Step, base: nat, i: nat, w: word, slave: Slave)
    requires Pending(s, base, i, w) && (|s.hw.bus| > i ==> !s.hw.start) && CanStep(s, step)
    requires step.Body? ==> !s.isr.value.tc
    ensures var t := Stepped(s, step, slave); Paid(t) >= Paid(s) && (|t.hw.bus| > i ==> !t.hw.start)
  {
    PaidStep(s, step, slave);
    hide Paid, Pulled, Sadd, ReadBit, NBytes, Stretch;
  }

  /** Only a pointer that addresses the next segment can be right, and no START may go out before the call's own. */
  lemma ReadOnlyIf(t: Sys, q: Pos, n: Spot, c: Caller, run: seq<CallStep>, slave: Slave, full: Goal)
    requires AtRead(t, q, n, slave, full) && Launching(t, c, run, slave)
    requires Ends(CallRan(c, run, slave).sys, full.bus, slave)
    ensures InStep(t, q, CallRan(c, run, slave).sys)
  {
    ReadPull(t, q, n, slave, full);
    if StopBit(Pulled(t.fifo)) {
      ReadShows(q, n, t.mem, slave, full);
      StopLaunch(t, q, n, c, run, |q.g.before| + 2, slave, full);
      assert false;
    } else {
      hide AtRead, AtPull, Stuck, CallRan, ValidCall, Launching, At, Aims, Addresses, Pulled, Sane, Loaded;
      var u := CallRan(c, run, slave).sys;
      var after :| ValidRun(u, after, slave) && Stuck(Ran(u, after, slave)) && Ran(u, after, slave).hw.bus == full.bus;
      ReadCount(t, q, n, c, run, after, slave, full);
      PaidOnce(t, q, n, c, run, after, slave, full);
    }
  }

  /** The segment that the pointer opens has as many bytes as the one that is due. */
  lemma ReadCount(t: Sys, q: Pos, n: Spot, c: Caller, run: seq<CallStep>, after: seq<Step>, slave: Slave, full: Goal)
    requires AtRead(t, q, n, slave, full) && Launching(t, c, run, slave) && !StopBit(Pulled(t.fifo))
    requires var u := CallRan(c, run, slave).sys;
             ValidRun(u, after, slave) && Stuck(Ran(u, after, slave)) && Ran(u, after, slave).hw.bus == full.bus
    ensures Addresses(Pulled(t.fifo), q.rest[0])
  {
    var u, w, i := CallRan(c, run, slave).sys, Pulled(t.fifo), |q.g.before| + 1;
    ReadPull(t, q, n, slave, full);
    ReadShows(q, n, t.mem, slave, full);
    hide AtRead, At, Aims, Stuck, Pending, Awaiting, Sane, Pulled, Sadd, ReadBit, NBytes, StopBit, Loaded, Placed;
    PendingThrough(c, run, i, i + 1, w, slave);
    PendingRun(u, after, i, i + 1, w, slave);
  }

  lemma PaidOnce(t: Sys, q: Pos, n: Spot, c: Caller, run: seq<CallStep>, after: seq<Step>, slave: Slave, full: Goal)
    requires AtRead(t, q, n, slave, full) && Launching(t, c, run, slave) && !StopBit(Pulled(t.fifo))
    requires var u := CallRan(c, run, slave).sys;
             ValidRun(u, after, slave) && Stuck(Ran(u, after, slave)) && Ran(u, after, slave).hw.bus == full.bus
    ensures |q.g.before| < |CallRan(c, run, slave).sys.hw.bus| <= |q.g.before| + 2
  {
    var u, w, i := CallRan(c, run, slave).sys, Pulled(t.fifo), |q.g.before| + 1;
    ReadPull(t, q, n, slave, full);
    ReadPaid(t, q, n, slave, full);
    SanePull(t, q, n, slave, full);
    LoadedStart(t);
    hide AtRead, At, Aims, Stuck, Pending, Sane, Pulled, StopBit, StartBit, Loaded, Placed, Paid, Costs;
    SaneLaunch(c, run, slave);
    PaidLaunch(c, run, i, i + 1, w, Costs(full.bus), slave);
    PaidRun(u, after, slave);
  }

  lemma LoadedStart(t: Sys)
    ensures Loaded(t).hw.bus == t.hw.bus && Loaded(t).hw.start == (t.hw.start || StartBit(Pulled(t.fifo)))
  {
    hide Pulled;
  }

  /** The read segment g, of one byte, is on the bus; its pointer will be taken from f. */
  ghost predicate Taking(s: Sys, g: Segment, taken: nat, w: word, f: seq<byte>, slave: Slave) {
    && ReceivingSegment(s.hw, g, slave, taken) && g.n == 1 && taken <= 1
    && !s.hw.stop && s.hw.cr2 == w && LatchHolds(s.hw, s.isr) && s.fifo == Rest(f, 4 * taken)
  }

  lemma TakingStep(s: Sys, step: Step, g: Segment, taken: nat, w: word, f: seq<byte>, slave: Slave)
    requires Taking(s, g, taken, w, f, slave) && CanStep(s, step) && (step.Body? ==> !s.isr.value.tc)
    requires step != Hardware(Address)
    ensures Taking(Stepped(s, step, slave), g, if step.Body? then 1 else taken, w, f, slave)
    ensures if step.Body? then taken == 0 else Stepped(s, step, slave).mem == s.mem
  {
    hide Pulled;
    match step
    case Hardware(e) => assert Received(slave, g.k, 1) == Received(slave, g.k, 0) + [Rx(slave(g.k))];
    case Enter =>
    case Body =>
      assert taken == 0 && s.isr.value == Status(false, true, false);
      assert Stepped(s, Body, slave) == StoreByte(s).(isr := None);
  }

  lemma {:induction false} TakingLaunch(c: Caller, run: seq<CallStep>, g: Segment, taken: nat, w: word, f: seq<byte>,
                                        slave: Slave) returns (next: nat)
    requires c.pc == Starting && ValidCall(c, run, slave) && Calm(c, run, slave) && Sane(c.sys)
    requires CallRan(c, run, slave).pc == Returned(true) && Taking(c.sys, g, taken, w, f, slave)
    ensures var u := CallRan(c, run, slave).sys;
            |u.hw.bus| <= |g.before| + 2 ==>
              && Taking(u, g, next, w, f, slave) && u.hw.start && !u.hw.tc && u.isr.None?
              && taken <= next && (taken == next ==> u.mem == c.sys.mem)
    decreases run
  {
    hide Taking, Stepped, CanStep, Sane;
    next := taken;
    if run != [] {
      var d := Called(c, run[0], slave);
      if run[0].Thread? {
        assert d.pc == Returned(true);
        assert run[1..] == [];
        TakingStart(c.sys, g, taken, w, f, slave);
      } else {
        SaneStep(c.sys, run[0].step, slave);
        if run[0] == Engine(Hardware(Address)) {
          TakingOver(c.sys, g, taken, w, f, slave);
          SaneLaunch(d, run[1..], slave);
        } else {
          TakingStep(c.sys, run[0].step, g, taken, w, f, slave);
          next := TakingLaunch(d, run[1..], g, if run[0].step.Body? then 1 else taken, w, f, slave);
        }
      }
    }
  }

  lemma TakingStart(s: Sys, g: Segment, taken: nat, w: word, f: seq<byte>, slave: Slave)
    requires Taking(s, g, taken, w, f, slave) && s.isr.None?
    ensures Taking(s.(hw := SetStart(s.hw)), g, taken, w, f, slave)
  {
  }

  lemma TakingOver(s: Sys, g: Segment, taken: nat, w: word, f: seq<byte>, slave: Slave)
    requires Taking(s, g, taken, w, f, slave) && CanStep(s, Hardware(Address))
    ensures |Stepped(s, Hardware(Address), slave).hw.bus| > |g.before| + 2
  {
  }

  /** The byte can be received and stored before the repeated START, through whatever pointer is next in the queue. */
  lemma TakingEnds(s: Sys, g: Segment, taken: nat, w: word, f: seq<byte>, goal: seq<Event>, slave: Slave)
    requires Taking(s, g, taken, w, f, slave) && s.hw.start && !s.hw.tc && s.isr.None?
    requires goal == g.before + [g.open] + Received(slave, g.k, 1) + ([Restart(Sadd(w), ReadBit(w))]
                     + Segmented(ReadBit(w), NBytes(w), Rest(f, 4), None, map[], slave, g.k + 1).events)
    ensures Ends(s, goal, slave)
    decreases 2 * (1 - taken) + (if s.hw.rxne then 0 else 1)
  {
    hide Pulled, Sadd, ReadBit, NBytes, Ends, Segmented;
    if taken == 1 {
      RequestHeads(s, slave);
      HeadingEnds(s, slave, StartGoal(s, slave), goal);
      SameEvents(ReadBit(w), NBytes(w), Rest(f, 4), None, s.mem, map[], slave, g.k + 1);
    } else if s.hw.rxne {
      var t := Stepped(s, Enter, slave);
      assert Stepped(t, Body, slave) == StoreByte(s);
      TakingStep(s, Enter, g, taken, w, f, slave);
      TakingStep(t, Body, g, taken, w, f, slave);
      TakingEnds(StoreByte(s), g, 1, w, f, goal, slave);
      EndsLater(t, Body, goal, slave);
      EndsLater(s, Enter, goal, slave);
    } else {
      var t := Stepped(s, Hardware(Arrive), slave);
      TakingStep(s, Hardware(Arrive), g, taken, w, f, slave);
      TakingEnds(t, g, taken, w, f, goal, slave);
      EndsLater(s, Hardware(Arrive), goal, slave);
    }
  }

  lemma EndsLater(s: Sys, step: Step, bus: seq<Event>, slave: Slave)
    requires CanStep(s, step) && Ends(Stepped(s, step, slave), bus, slave)
    ensures Ends(s, bus, slave)
  {
    hide Stuck, CanStep, Stepped;
    var t := Stepped(s, step, slave);
    var run :| ValidRun(t, run, slave) && Stuck(Ran(t, run, slave)) && Ran(t, run, slave).hw.bus == bus;
    assert ([step] + run)[1..] == run;
    assert ValidRun(s, [step] + run, slave) && Ran(s, [step] + run, slave) == Ran(t, run, slave);
  }

  /** Memory does not matter for the bus. */
  lemma {:induction false} SameEvents(rd: bool, n: nat, f: seq<byte>, next: Option<word>, m: Memory, mem: Memory,
                                      slave: Slave, k: nat)
    ensures Segmented(rd, n, f, next, m, slave, k).events == Segmented(rd, n, f, next, mem, slave, k).events
    decreases |f|, if next.Some? then 1 else 0, n + 1
  {
    hide Pulled, Sadd, ReadBit, NBytes, StopBit;
    if n > 0 {
      if rd {
        SameEvents(rd, n - 1, Rest(f, 4), next, m[Pulled(f) := slave(k)], mem[Pulled(f) := slave(k)], slave, k + 1);
      } else {
        SameEvents(rd, n - 1, Rest(f, 1), next, m, mem, slave, k);
      }
    } else if next.Some? {
      SameEvents(ReadBit(next.value), NBytes(next.value), f, None, m, mem, slave, k);
    } else if f != [] {
      SameEvents(ReadBit(Pulled(f)), NBytes(Pulled(f)), Rest(f, 4), None, m, mem, slave, k);
    }
  }

  lemma ReadIf(t: Sys, q: Pos, n: Spot, c: Caller, run: seq<CallStep>, slave: Slave, full: Goal)
    requires AtRead(t, q, n, slave, full) && Launching(t, c, run, slave)
    requires InStep(t, q, CallRan(c, run, slave).sys)
    ensures Ends(CallRan(c, run, slave).sys, full.bus, slave)
  {
    hide AtRead, AtPull, At, Aims, Pulled, Taking, Ends, Loaded, Sane, Awaiting, Pending, StopBit, Sadd, ReadBit;
    hide NBytes;
    hide StartBit, Stream, Rest, Calm, Placed, Needed;
    ReadPull(t, q, n, slave, full);
    LoadedTakes(t, q, n, slave, full);
    assert q.cur.Recv? && q.rest != [] by {
      ReadMeans(t, q, n, slave, full);
    }
    var u, w, f := CallRan(c, run, slave).sys, Pulled(t.fifo), Rest(t.fifo, 4);
    var taken := TakingLaunch(c, run, q.g, 0, w, f, slave);
    ReadGoal(q, w, f, t.mem, slave, full);
    TakingEnds(u, q.g, taken, w, f, full.bus, slave);
  }

  lemma ReadMeans(t: Sys, q: Pos, n: Spot, slave: Slave, full: Goal)
    requires AtRead(t, q, n, slave, full)
    ensures q.cur.Recv? && q.rest != []
  {
    hide AtPull;
  }

  lemma LoadedTakes(t: Sys, q: Pos, n: Spot, slave: Slave, full: Goal)
    requires AtRead(t, q, n, slave, full) && !StopBit(Pulled(t.fifo))
    ensures Taking(Loaded(t), q.g, 0, Pulled(t.fifo), Rest(t.fifo, 4), slave)
  {
    hide Pulled, StartBit, StopBit, Framed, Aims, Plan, Stream;
  }

  lemma ReadGoal(q: Pos, w: word, f: seq<byte>, mem: Memory, slave: Slave, full: Goal)
    requires Placed(q) && q.cur.Recv? && q.rest != [] && Aims(mem, q, slave, full)
    requires f == Stream(q.rest) && Addresses(w, q.rest[0])
    ensures full.bus == q.g.before + [q.g.open] + Received(slave, q.g.k, 1) + ([Restart(Sadd(w), ReadBit(w))]
                        + Segmented(ReadBit(w), NBytes(w), Rest(f, 4), None, map[], slave, q.g.k + 1).events)
  {
    var next, k := q.rest[0], q.g.k + 1;
    hide Segmented, Trace, Stream, Aims, Sadd, ReadBit, NBytes, StopBit, Queued, Cr2, Stores, HeardBy;
    UnmovedShows(q, mem, slave, full);
    StreamCons(q.rest);
    AddressedServes(w, next, q.rest[1..], map[], slave, k);
    assert q.rest == [next] + q.rest[1..];
    TraceCons(next, q.rest[1..], slave, k, false);
    assert Received(slave, q.g.k, 1) == [Rx(slave(q.g.k))];
    assert Rest(f, 4) == next.Payload() + Stream(q.rest[1..]);
    Splices(q.g.before, [q.g.open], [Rx(slave(q.g.k))], [Restart(next.dev, next.Recv?)], next.Data(slave, k),
            Trace(q.rest[1..], slave, k + next.Heard(), false), [Stop]);
  }

  lemma Splices<T>(a: seq<T>, b: seq<T>, c: seq<T>, d: seq<T>, e: seq<T>, f: seq<T>, g: seq<T>)
    ensures a + (b + (c + (d + e + f + g))) == a + b + c + (d + (e + (f + g)))
  {
  }

  /** A pull after the byte of a read has been stored. */
  lemma ReadDoneLaunch(t: Sys, q: Pos, n: Spot, c: Caller, run: seq<CallStep>, slave: Slave, full: Goal)
    requires AtPull(t, q, n, slave, full) && Launching(t, c, run, slave)
    requires q.cur.Recv? && q.rest != [] && q.moved == 1
    ensures var u := CallRan(c, run, slave).sys; InStep(t, q, u) && Heading(u, slave, full)
  {
    var u, w, i := CallRan(c, run, slave).sys, Pulled(t.fifo), |q.g.before| + 1;
    DoneTakes(t, q, n, slave, full);
    hide AtPull, At, Pulled, Taking, Heading, Loaded, Sane, Awaiting, Needed, Addresses, StopBit, Sadd, ReadBit, NBytes;
    hide Aims;
    AwaitingThrough(c, run, i, i + 1, w, slave);
    SaneLaunch(c, run, slave);
    var taken := TakingLaunch(c, run, q.g, 1, w, t.fifo, slave);
    assert taken == 1 by {
      TakenOne(u, q.g, taken, w, t.fifo, slave);
    }
    DoneGoal(u, q, w, t.fifo, slave, full);
  }

  lemma TakenOne(s: Sys, g: Segment, taken: nat, w: word, f: seq<byte>, slave: Slave)
    requires Taking(s, g, taken, w, f, slave)
    ensures taken <= 1
  {
  }

  /** With the byte stored, the repeated START leads to the goal. */
  lemma DoneGoal(u: Sys, q: Pos, w: word, f: seq<byte>, slave: Slave, full: Goal)
    requires Taking(u, q.g, 1, w, f, slave) && u.hw.start && !u.hw.tc && u.isr.None?
    requires Placed(q) && q.cur.Recv? && q.rest != [] && q.moved == 1 && Aims(u.mem, q, slave, full)
    requires f == Stream(q.rest) && Addresses(w, q.rest[0])
    ensures Heading(u, slave, full)
  {
    RequestHeads(u, slave);
    DoneShows(u, q, w, f, slave);
    ReadGoal(q, w, f, u.mem, slave, full);
    SameEvents(ReadBit(w), NBytes(w), Rest(f, 4), None, u.mem, map[], slave, q.g.k + 1);
    DoneStores(q, w, f, u.mem, slave, full);
    hide Taking, Aims, Placed, Heading, Segmented, Stream;
    assert StartGoal(u, slave) == full;
  }

  lemma DoneShows(u: Sys, q: Pos, w: word, f: seq<byte>, slave: Slave)
    requires Taking(u, q.g, 1, w, f, slave) && u.hw.start && !u.hw.tc && u.isr.None?
    ensures Requesting(u)
    ensures var e := Segmented(ReadBit(w), NBytes(w), Rest(f, 4), None, u.mem, slave, q.g.k + 1);
            StartGoal(u, slave) == Goal(q.g.before + [q.g.open] + Received(slave, q.g.k, 1)
                                        + ([Restart(Sadd(w), ReadBit(w))] + e.events), e.mem, e.heard)
  {
    hide Segmented, Sadd, ReadBit, NBytes;
  }

  lemma DoneStores(q: Pos, w: word, f: seq<byte>, mem: Memory, slave: Slave, full: Goal)
    requires Placed(q) && q.cur.Recv? && q.rest != [] && q.moved == 1 && Aims(mem, q, slave, full)
    requires f == Stream(q.rest) && Addresses(w, q.rest[0])
    ensures var e := Segmented(ReadBit(w), NBytes(w), Rest(f, 4), None, mem, slave, q.g.k + 1);
            e.mem == full.mem && e.heard == full.heard
  {
    hide Segmented, Trace, Stream, Sadd, ReadBit, NBytes, StopBit, Queued, Cr2, Stores, HeardBy;
    var next, k := q.rest[0], q.g.k + 1;
    StreamCons(q.rest);
    AddressedServes(w, next, q.rest[1..], mem, slave, k);
    OneStore(q.rest, mem, slave, k);
    assert Rest(f, 4) == next.Payload() + Stream(q.rest[1..]);
  }

  lemma {:induction false} AwaitingThrough(c: Caller, run: seq<CallStep>, base: nat, i: nat, w: word, slave: Slave)
    requires c.pc == Starting && ValidCall(c, run, slave) && Calm(c, run, slave)
    requires CallRan(c, run, slave).pc == Returned(true) && Awaiting(c.sys, base, i, w)
    ensures |CallRan(c, run, slave).sys.hw.bus| <= i
    decreases run
  {
    hide Stepped, CanStep, Sane;
    if run != [] {
      var d := Called(c, run[0], slave);
      if run[0].Thread? {
        assert d.pc == Returned(true);
        assert run[1..] == [];
      } else {
        AwaitingStep(c.sys, run[0].step, base, i, w, slave);
        AwaitingThrough(d, run[1..], base, i, w, slave);
      }
    }
  }

  lemma DoneTakes(t: Sys, q: Pos, n: Spot, slave: Slave, full: Goal)
    requires AtPull(t, q, n, slave, full) && q.cur.Recv? && q.rest != [] && q.moved == 1
    ensures var w, i := Pulled(t.fifo), |q.g.before| + 1;
            && Sane(Loaded(t)) && Taking(Loaded(t), q.g, 1, w, t.fifo, slave) && Awaiting(Loaded(t), i, i + 1, w)
            && Addresses(w, q.rest[0]) && Loaded(t).hw.bus == q.g.before + [q.g.open] + Received(slave, q.g.k, 1)
            && !t.hw.start && Needed(q) == [] && t.fifo == Stream(q.rest) && Placed(q) && Aims(t.mem, q, slave, full)
  {
    NotStarting(t.hw, q, slave);
    FollowingFramed(t.fifo, q, slave);
    hide Pulled, Framed, Aims, Plan, Stream, Following, Cr2, Queued, Sadd, NBytes, ReadBit, StartBit, StopBit;
  }
}
