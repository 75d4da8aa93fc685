/** The interrupt engine on any queue contents, whole frames or not: the queue decides what the bus will show, in every
    order of events. Whole frames decode to their transactions. */
module I2cDecode {
  import opened Words
  import opened Fifo
  import opened I2cBus
  import opened I2cEngine

  /** What is still to come: bus events, and memory and the count of received bytes after them. */
  datatype Effect = Effect(events: seq<Event>, mem: Memory, heard: nat) {
    function Behind(e: seq<Event>): Effect { Effect(e + events, mem, heard) }
  }

  function Head(f: seq<byte>): byte { if f == [] then 0 else f[0] }

  function Opening(h: Hw): Event {
    if h.phase == Idle then Start(Sadd(h.cr2), ReadBit(h.cr2)) else Restart(Sadd(h.cr2), ReadBit(h.cr2))
  }

  /** From TC on: an empty queue means STOP; otherwise four bytes are a header. */
  function Decoded(f: seq<byte>, mem: Memory, slave: Slave, k: nat): Effect
    decreases |f|, 0, 0
  {
    if f == [] then Effect([Stop], mem, k)
    else
      var w := Pulled(f);
      var open := if StopBit(w) then [Stop, Start(Sadd(w), ReadBit(w))] else [Restart(Sadd(w), ReadBit(w))];
      Segmented(ReadBit(w), NBytes(w), Rest(f, 4), None, mem, slave, k).Behind(open)
  }

  /** Inside a segment with n bytes to go: each takes a byte or a pointer from the queue. After them comes TC, or, when
      a START with header w is requested already, a repeated START. */
  function Segmented(rd: bool, n: nat, f: seq<byte>, next: Option<word>, mem: Memory, slave: Slave, k: nat): Effect
    decreases |f|, if next.Some? then 1 else 0, n + 1
  {
    if n > 0 then
      if rd
      then Segmented(rd, n - 1, Rest(f, 4), next, mem[Pulled(f) := slave(k)], slave, k + 1).Behind([Rx(slave(k))])
      else Segmented(rd, n - 1, Rest(f, 1), next, mem, slave, k).Behind([Tx(Head(f))])
    else
      match next
      case None => Decoded(f, mem, slave, k)
      case Some(w) =>
        Segmented(ReadBit(w), NBytes(w), f, None, mem, slave, k).Behind([Restart(Sadd(w), ReadBit(w))])
  }

  /** Where a segment leads of which software has moved `loaded` or `taken` bytes. */
  function Reached(g: Segment, loaded: seq<byte>, taken: nat, f: seq<byte>, next: Option<word>, mem: Memory,
                   slave: Slave): Goal
    requires |loaded| <= g.n && taken <= g.n
  {
    var e := if g.Reads() then Segmented(true, g.n - taken, f, next, mem, slave, g.k + taken)
                                 .Behind(Received(slave, g.k, taken))
             else Segmented(false, g.n - |loaded|, f, next, mem, slave, g.k).Behind(Sent(loaded));
    Goal(g.before + [g.open] + e.events, e.mem, e.heard)
  }

  /** Segment g is requested or on the bus and the handler will go on with the queue. */
  ghost predicate Decoding(s: Sys, g: Segment, loaded: seq<byte>, taken: nat, slave: Slave, goal: Goal) {
    && |loaded| <= g.n && taken <= g.n
    && InSegment(s.hw, g, slave, loaded, taken) && LatchHolds(s.hw, s.isr)
    && goal == Reached(g, loaded, taken, s.fifo, None, s.mem, slave)
  }

  /** Another START is requested while segment g is being sent. */
  ghost predicate Doubled(s: Sys, g: Segment, loaded: seq<byte>, slave: Slave, goal: Goal) {
    && |loaded| <= g.n && !g.Reads()
    && s.hw.start && !s.hw.stop && !s.hw.tc && SendingSegment(s.hw, g, loaded)
    && LatchHolds(s.hw, s.isr)
    && goal == Reached(g, loaded, 0, s.fifo, Some(s.hw.cr2), s.mem, slave)
  }

  /** STOP and START are both requested: STOP goes first. */
  ghost predicate Stopping(s: Sys, slave: Slave, goal: Goal) {
    var h := s.hw;
    var e := Segmented(ReadBit(h.cr2), NBytes(h.cr2), s.fifo, None, s.mem, slave, h.heard);
    && h.start && h.stop && h.phase != Idle && h.left == 0 && h.txdr.None? && !h.Flagged() && s.isr.None?
    && goal == Goal(h.bus + [Stop] + [Start(Sadd(h.cr2), ReadBit(h.cr2))] + e.events, e.mem, e.heard)
  }

  /** The state decides where the engine goes. */
  ghost predicate Heading(s: Sys, slave: Slave, goal: Goal) {
    || Ending(s, goal)
    || Stopping(s, slave, goal)
    || (exists g, loaded, taken :: Decoding(s, g, loaded, taken, slave, goal))
    || (exists g, loaded :: Doubled(s, g, loaded, slave, goal))
  }

  /** START is requested on a bus that is free or whose last segment is complete. */
  predicate Requesting(s: Sys) {
    s.hw.start && !s.hw.stop && s.hw.left == 0 && s.hw.txdr.None? && !s.hw.Flagged() && s.isr.None?
  }

  /** Where a requested START leads. */
  function StartGoal(s: Sys, slave: Slave): Goal {
    var h := s.hw;
    var e := Segmented(ReadBit(h.cr2), NBytes(h.cr2), s.fifo, None, s.mem, slave, h.heard);
    Goal(h.bus + [Opening(h)] + e.events, e.mem, e.heard)
  }

  lemma RequestHeads(s: Sys, slave: Slave)
    requires Requesting(s)
    ensures Heading(s, slave, StartGoal(s, slave))
  {
    var h := s.hw;
    var g := Segment(h.bus, Opening(h), NBytes(h.cr2), h.heard);
    assert Sent([]) == [] && Received(slave, h.heard, 0) == [];
    assert Decoding(s, g, [], 0, slave, StartGoal(s, slave));
  }

  /** Every step brings the engine nearer to the end, also with an empty queue. */
  function Work(s: Sys): nat {
    var h := s.hw;
    9000 * |s.fifo| + (if h.start then 7000 else 0) + 20 * (if h.txdr.Some? && h.left > 0 then h.left - 1 else h.left)
    + (if h.txdr.Some? then 12 else 0) + (if h.txis then 0 else 5) + (if h.rxne then 6 else 0) + (if h.tc then 0 else 1)
    + (if s.isr.None? then 1 else 0) + (if h.phase == Idle then 0 else if h.stop then 10 else 60)
  }

  lemma DecodingHardware(s: Sys, e: HwEvent, g: Segment, loaded: seq<byte>, taken: nat, slave: Slave, goal: Goal)
    requires Decoding(s, g, loaded, taken, slave, goal) && Enabled(s.hw, e)
    ensures var t := s.(hw := Apply(s.hw, e, slave)); Decoding(t, g, loaded, taken, slave, goal) && Work(t) < Work(s)
  {
    hide Reached;
    SegmentStable(s.hw, e, g, slave, loaded, taken);
  }

  /** TXIS: one byte from the queue. */
  lemma DecodingLoad(s: Sys, g: Segment, loaded: seq<byte>, taken: nat, slave: Slave, goal: Goal)
    requires Decoding(s, g, loaded, taken, slave, goal) && s.isr == Some(Status(true, false, false))
    ensures Decoding(Stepped(s, Body, slave), g, loaded + [Head(s.fifo)], taken, slave, goal)
    ensures Work(Stepped(s, Body, slave)) < Work(s)
  {
    var b := Head(s.fifo);
    LoadInSegment(s.hw, g, slave, loaded, b);
    assert Sent(loaded + [b]) == Sent(loaded) + [Tx(b)];
    hide InSegment;
  }

  /** RXNE: a pointer from the queue. */
  lemma DecodingStore(s: Sys, g: Segment, loaded: seq<byte>, taken: nat, slave: Slave, goal: Goal)
    requires Decoding(s, g, loaded, taken, slave, goal) && s.hw.rxne
    ensures var t := StoreByte(s).(isr := None);
            && Decoding(t, g, loaded, taken + 1, slave, goal) && t.hw.tc == s.hw.tc && !t.hw.rxne
            && Work(t) + 4 < Work(s)
  {
    hide Pulled;
    assert g.Reads() && InSegment(s.hw, g, slave, [], taken);
    TakeInSegment(s.hw, g, slave, taken);
    StoredReaches(g, loaded, taken, s.fifo, s.mem, slave);
    hide Reached;
  }

  lemma StoredReaches(g: Segment, loaded: seq<byte>, taken: nat, f: seq<byte>, mem: Memory, slave: Slave)
    requires g.Reads() && |loaded| <= g.n && taken < g.n
    ensures Reached(g, loaded, taken, f, None, mem, slave)
         == Reached(g, loaded, taken + 1, Rest(f, 4), None, mem[Pulled(f) := slave(g.k + taken)], slave)
  {
    hide Pulled, Decoded;
    assert Received(slave, g.k, taken + 1) == Received(slave, g.k, taken) + [Rx(slave(g.k + taken))];
  }

  /** A complete segment has shown everything but what the queue decodes to. */
  lemma DecodingDone(s: Sys, g: Segment, loaded: seq<byte>, taken: nat, slave: Slave, goal: Goal)
    requires Decoding(s, g, loaded, taken, slave, goal) && s.hw.tc && !s.hw.rxne
    ensures var h := s.hw; !h.start && !h.stop && h.phase != Idle && h.left == 0 && h.txdr.None? && !h.txis
    ensures var e := Decoded(s.fifo, s.mem, slave, s.hw.heard); goal == Goal(s.hw.bus + e.events, e.mem, e.heard)
  {
    hide Decoded;
    SegmentComplete(s.hw, g, slave, loaded, taken);
  }

  /** TC: STOP, or the next header. */
  lemma DecodingComplete(s: Sys, slave: Slave, goal: Goal)
    requires s.hw.tc && !s.hw.rxne && s.isr.None?
    requires var h := s.hw; !h.start && !h.stop && h.phase != Idle && h.left == 0 && h.txdr.None? && !h.txis
    requires var e := Decoded(s.fifo, s.mem, slave, s.hw.heard); goal == Goal(s.hw.bus + e.events, e.mem, e.heard)
    ensures Heading(StopOrChain(s), slave, goal) && Work(StopOrChain(s)) + 10 < Work(s)
  {
    hide Pulled, Sadd, ReadBit, NBytes, StartBit, StopBit, Segmented;
    var t := StopOrChain(s);
    if s.fifo == [] {
      assert Ending(t, goal);
    } else if StopBit(Pulled(s.fifo)) {
      var w := Pulled(s.fifo);
      assert t.hw.bus + [Stop] + [Start(Sadd(w), ReadBit(w))] == t.hw.bus + [Stop, Start(Sadd(w), ReadBit(w))];
      assert Stopping(t, slave, goal);
    } else {
      RequestHeads(t, slave);
      assert goal == StartGoal(t, slave);
    }
  }

  lemma DecodingBody(s: Sys, g: Segment, loaded: seq<byte>, taken: nat, slave: Slave, goal: Goal)
    requires Decoding(s, g, loaded, taken, slave, goal) && s.isr.Some?
    ensures Heading(Stepped(s, Body, slave), slave, goal) && Work(Stepped(s, Body, slave)) < Work(s)
  {
    var f := s.isr.value;
    DecodingLatch(s, g, loaded, taken, slave, goal);
    hide Decoding, Pulled, Handled, Work, StopOrChain, StoreByte;
    if f.txis {
      DecodingLoad(s, g, loaded, taken, slave, goal);
    } else {
      DecodingFlags(s, g, loaded, taken, slave, goal);
    }
  }

  lemma DecodingLatch(s: Sys, g: Segment, loaded: seq<byte>, taken: nat, slave: Slave, goal: Goal)
    requires Decoding(s, g, loaded, taken, slave, goal) && s.isr.Some?
    ensures var f := s.isr.value;
            && (f.txis ==> f == Status(true, false, false)) && (f.rxne ==> s.hw.rxne) && (f.tc ==> s.hw.tc)
            && (!f.txis && !f.rxne ==> f.tc && !s.hw.rxne)
            && Decoding(s.(isr := None), g, loaded, taken, slave, goal) && Work(s.(isr := None)) <= Work(s) + 1
  {
    hide Reached;
  }

  lemma DecodingFlags(s: Sys, g: Segment, loaded: seq<byte>, taken: nat, slave: Slave, goal: Goal)
    requires Decoding(s, g, loaded, taken, slave, goal) && s.isr.Some? && !s.isr.value.txis
    ensures Heading(Stepped(s, Body, slave), slave, goal) && Work(Stepped(s, Body, slave)) < Work(s)
  {
    DecodingLatch(s, g, loaded, taken, slave, goal);
    hide Decoding, Pulled, Work, StopOrChain, StoreByte, Decoded;
    var f := s.isr.value;
    if f.rxne {
      DecodingStore(s, g, loaded, taken, slave, goal);
      var t := StoreByte(s).(isr := None);
      if f.tc {
        DecodingDone(t, g, loaded, taken + 1, slave, goal);
        DecodingComplete(t, slave, goal);
        assert Stepped(s, Body, slave) == StopOrChain(t) by {
          LatchIgnored(s);
        }
      }
    } else {
      var t := s.(isr := None);
      DecodingDone(t, g, loaded, taken, slave, goal);
      DecodingComplete(t, slave, goal);
      assert Stepped(s, Body, slave) == StopOrChain(t) by {
        LatchIgnored(s);
      }
    }
  }

  lemma LatchIgnored(s: Sys)
    ensures StopOrChain(s).(isr := None) == StopOrChain(s.(isr := None))
    ensures StopOrChain(StoreByte(s)).(isr := None) == StopOrChain(StoreByte(s).(isr := None))
  {
    hide Pulled;
  }

  /** With another START requested the controller first finishes the segment. */
  lemma DoubledStep(s: Sys, step: Step, g: Segment, loaded: seq<byte>, slave: Slave, goal: Goal)
    requires Doubled(s, g, loaded, slave, goal) && CanStep(s, step)
    ensures Heading(Stepped(s, step, slave), slave, goal) && Work(Stepped(s, step, slave)) < Work(s)
  {
    hide Pulled, Sadd, ReadBit, NBytes;
    var t := Stepped(s, step, slave);
    match step
    case Hardware(e) =>
      if e == Address {
        RequestHeads(s, slave);
        assert goal == StartGoal(s, slave);
        DoubledAddress(s, g, loaded, slave, goal);
      } else {
        DoubledHardware(s, e, g, loaded, slave, goal);
      }
    case Enter => assert Doubled(t, g, loaded, slave, goal);
    case Body => DoubledLoad(s, g, loaded, slave, goal);
  }

  lemma DoubledAddress(s: Sys, g: Segment, loaded: seq<byte>, slave: Slave, goal: Goal)
    requires Requesting(s) && goal == StartGoal(s, slave) && Enabled(s.hw, Address)
    ensures var t := Stepped(s, Hardware(Address), slave); Heading(t, slave, goal) && Work(t) < Work(s)
  {
    var h := s.hw;
    var g := Segment(h.bus, Opening(h), NBytes(h.cr2), h.heard);
    assert Sent([]) == [] && Received(slave, h.heard, 0) == [];
    assert Decoding(s, g, [], 0, slave, goal);
    DecodingHardware(s, Address, g, [], 0, slave, goal);
  }

  lemma DoubledHardware(s: Sys, e: HwEvent, g: Segment, loaded: seq<byte>, slave: Slave, goal: Goal)
    requires Doubled(s, g, loaded, slave, goal) && Enabled(s.hw, e) && e != Address
    ensures var t := s.(hw := Apply(s.hw, e, slave)); Doubled(t, g, loaded, slave, goal) && Work(t) < Work(s)
  {
    hide Reached;
    if e == Shift {
      var last := |loaded| - 1;
      assert Sent(loaded) == Sent(loaded[..last]) + [Tx(loaded[last])];
    }
  }

  lemma DoubledLoad(s: Sys, g: Segment, loaded: seq<byte>, slave: Slave, goal: Goal)
    requires Doubled(s, g, loaded, slave, goal) && s.isr.Some?
    ensures Doubled(Stepped(s, Body, slave), g, loaded + [Head(s.fifo)], slave, goal)
    ensures Work(Stepped(s, Body, slave)) < Work(s)
  {
    hide Pulled;
    var b := Head(s.fifo);
    assert Sent(loaded + [b]) == Sent(loaded) + [Tx(b)];
    assert (loaded + [b])[..|loaded|] == loaded;
  }

  lemma StoppingStep(s: Sys, step: Step, slave: Slave, goal: Goal)
    requires Stopping(s, slave, goal) && CanStep(s, step)
    ensures Heading(Stepped(s, step, slave), slave, goal) && Work(Stepped(s, step, slave)) < Work(s)
  {
    hide Segmented;
    assert step == Hardware(Halt);
    RequestHeads(Stepped(s, step, slave), slave);
  }

  lemma HeadingStep(s: Sys, step: Step, slave: Slave, goal: Goal)
    requires Heading(s, slave, goal) && CanStep(s, step)
    ensures Heading(Stepped(s, step, slave), slave, goal) && Work(Stepped(s, step, slave)) < Work(s)
  {
    hide Stopping, Decoding, Doubled;
    if Ending(s, goal) {
    } else if Stopping(s, slave, goal) {
      StoppingStep(s, step, slave, goal);
    } else if g, loaded, taken :| Decoding(s, g, loaded, taken, slave, goal) {
      match step
      case Hardware(e) => DecodingHardware(s, e, g, loaded, taken, slave, goal);
      case Enter => DecodingEnter(s, g, loaded, taken, slave, goal);
      case Body => DecodingBody(s, g, loaded, taken, slave, goal);
    } else {
      var g, loaded :| Doubled(s, g, loaded, slave, goal);
      DoubledStep(s, step, g, loaded, slave, goal);
    }
  }

  lemma DecodingEnter(s: Sys, g: Segment, loaded: seq<byte>, taken: nat, slave: Slave, goal: Goal)
    requires Decoding(s, g, loaded, taken, slave, goal) && CanStep(s, Enter)
    ensures Decoding(Stepped(s, Enter, slave), g, loaded, taken, slave, goal)
    ensures Work(Stepped(s, Enter, slave)) < Work(s)
  {
    hide Reached;
  }

  lemma HeadingShows(s: Sys, slave: Slave, goal: Goal)
    requires Heading(s, slave, goal)
    ensures s.hw.bus <= goal.bus
    ensures Stuck(s) ==> Ending(s, goal) && s.hw.phase == Idle
  {
    hide Stopping, Decoding, Doubled, Stuck;
    if Ending(s, goal) {
      EndingShows(s, goal);
    } else if Stopping(s, slave, goal) {
      StoppingShows(s, slave, goal);
    } else if g, loaded, taken :| Decoding(s, g, loaded, taken, slave, goal) {
      DecodingShows(s, g, loaded, taken, slave, goal);
    } else {
      var g, loaded :| Doubled(s, g, loaded, slave, goal);
      DoubledShows(s, g, loaded, slave, goal);
    }
  }

  lemma EndingShows(s: Sys, goal: Goal)
    requires Ending(s, goal)
    ensures s.hw.bus <= goal.bus && (Stuck(s) ==> s.hw.phase == Idle)
  {
    if Stuck(s) {
      assert !CanStep(s, Hardware(Halt));
    }
  }

  lemma StoppingShows(s: Sys, slave: Slave, goal: Goal)
    requires Stopping(s, slave, goal)
    ensures s.hw.bus <= goal.bus && !Stuck(s)
  {
    hide Segmented;
    assert CanStep(s, Hardware(Halt));
  }

  lemma DecodingShows(s: Sys, g: Segment, loaded: seq<byte>, taken: nat, slave: Slave, goal: Goal)
    requires Decoding(s, g, loaded, taken, slave, goal)
    ensures s.hw.bus <= goal.bus && !Stuck(s)
  {
    assert CanStep(s, Hardware(Address)) || CanStep(s, Hardware(Request)) || CanStep(s, Hardware(Shift))
        || CanStep(s, Hardware(Arrive)) || CanStep(s, Hardware(Complete)) || CanStep(s, Enter) || CanStep(s, Body);
    hide Decoded, Pulled, Stuck, CanStep;
    if s.hw.rxne {
      assert Received(slave, g.k, taken + 1) == Received(slave, g.k, taken) + [Rx(slave(g.k + taken))];
    } else if !s.hw.start && !g.Reads() {
      LoadedShows(s.hw, g, loaded);
    }
  }

  lemma LoadedShows(h: Hw, g: Segment, loaded: seq<byte>)
    requires SendingSegment(h, g, loaded)
    ensures h.bus <= g.before + [g.open] + Sent(loaded)
  {
    if h.txdr.Some? {
      assert Sent(loaded[..|loaded| - 1]) == Sent(loaded)[..|loaded| - 1];
    }
  }

  lemma DoubledShows(s: Sys, g: Segment, loaded: seq<byte>, slave: Slave, goal: Goal)
    requires Doubled(s, g, loaded, slave, goal)
    ensures s.hw.bus <= goal.bus && !Stuck(s)
  {
    assert CanStep(s, Hardware(Address)) || CanStep(s, Hardware(Request)) || CanStep(s, Hardware(Shift))
        || CanStep(s, Enter) || CanStep(s, Body);
    hide Segmented, Stuck, CanStep;
    LoadedShows(s.hw, g, loaded);
  }

  /** What the engine puts on the bus is decided by its state: every run is bounded, shows a prefix, and ends there. */
  lemma {:induction false} HeadingRun(s: Sys, run: seq<Step>, slave: Slave, goal: Goal)
    requires Heading(s, slave, goal) && ValidRun(s, run, slave)
    ensures var t := Ran(s, run, slave);
            && |run| + Work(t) <= Work(s) && t.hw.bus <= goal.bus
            && (Stuck(t) ==> Ending(t, goal) && t.hw.phase == Idle)
    decreases run
  {
    hide Heading, Stuck, Ending, Work;
    if run == [] {
      HeadingShows(s, slave, goal);
    } else {
      HeadingStep(s, run[0], slave, goal);
      HeadingRun(Stepped(s, run[0], slave), run[1..], slave, goal);
    }
  }

  /** And there is such a run. */
  lemma {:induction false} SomeEnd(s: Sys, slave: Slave, goal: Goal) returns (run: seq<Step>)
    requires Heading(s, slave, goal)
    ensures ValidRun(s, run, slave) && Stuck(Ran(s, run, slave))
    decreases Work(s)
  {
    run := [];
    if step :| CanStep(s, step) {
      HeadingStep(s, step, slave, goal);
      run := SomeEnd(Stepped(s, step, slave), slave, goal);
      run := [step] + run;
    }
  }

  // Whole frames.

  lemma {:induction false} FedBytes(d: seq<byte>, f: seq<byte>, next: Option<word>, mem: Memory, slave: Slave, k: nat)
    ensures Segmented(false, |d|, d + f, next, mem, slave, k)
         == Segmented(false, 0, f, next, mem, slave, k).Behind(Sent(d))
  {
    hide Decoded, Pulled, ReadBit, NBytes, Sadd;
    if d == [] {
      assert d + f == f;
    } else {
      assert (d + f)[1..] == d[1..] + f && Sent(d) == [Tx(d[0])] + Sent(d[1..]);
      FedBytes(d[1..], f, next, mem, slave, k);
    }
  }

  /** The queue contents of a plan decode to the plan: its trace and STOP on the bus, its stores in memory. */
  lemma {:induction false} StreamDecodes(segs: seq<Seg>, mem: Memory, slave: Slave, k: nat)
    requires AllWf(segs)
    ensures Decoded(Stream(segs), mem, slave, k)
         == Effect(Trace(segs, slave, k, false) + [Stop], Stores(mem, segs, slave, k), k + HeardBy(segs))
    decreases segs
  {
    if segs != [] {
      StreamDecodes(segs[1..], segs[0].Store(mem, slave, k), slave, k + segs[0].Heard());
      FrontDecodes(segs[0], Stream(segs[1..]), mem, slave, k);
      hide Decoded, Queued, Cr2;
    }
  }

  /** A header and its payload at the front of the queue. */
  lemma FrontDecodes(seg: Seg, f: seq<byte>, mem: Memory, slave: Slave, k: nat)
    requires seg.Wf()
    ensures Decoded(Queued(seg.Header()) + seg.Payload() + f, mem, slave, k)
         == Decoded(f, seg.Store(mem, slave, k), slave, k + seg.Heard())
            .Behind([Restart(seg.dev, seg.Recv?)] + seg.Data(slave, k))
  {
    HeaderIsHeader(seg);
    PulledHeader(seg.Header(), seg.Payload(), f);
    SegDecodes(seg, f, None, mem, slave, k);
    var d := Decoded(f, seg.Store(mem, slave, k), slave, k + seg.Heard());
    assert Segmented(seg.Recv?, 0, f, None, seg.Store(mem, slave, k), slave, k + seg.Heard()) == d;
    hide Segmented, Pulled, Queued, Cr2, Sadd, ReadBit, NBytes, StartBit, StopBit;
    assert [Restart(seg.dev, seg.Recv?)] + (seg.Data(slave, k) + d.events)
        == [Restart(seg.dev, seg.Recv?)] + seg.Data(slave, k) + d.events;
  }

  /** The payload of a segment is what the segment takes from the queue. */
  lemma SegDecodes(seg: Seg, f: seq<byte>, next: Option<word>, mem: Memory, slave: Slave, k: nat)
    ensures Segmented(seg.Recv?, seg.Units(), seg.Payload() + f, next, mem, slave, k)
         == Segmented(seg.Recv?, 0, f, next, seg.Store(mem, slave, k), slave, k + seg.Heard())
            .Behind(seg.Data(slave, k))
  {
    if seg.Send? {
      FedBytes(seg.bytes, f, next, mem, slave, k);
    } else {
      hide Queued, Decoded, Assembled;
      PulledWord(seg.ptr, f);
    }
  }

  /** Whole frames decode to their transactions. */
  lemma FramesDecode(xs: seq<Xfer>, mem: Memory, slave: Slave, k: nat)
    ensures Decoded(Frames(xs), mem, slave, k)
         == Effect(Formats(xs, slave, k, false) + [Stop], Delivered(mem, xs, slave, k), k + AllReads(xs))
  {
    PlanStream(xs);
    PlanTrace(xs, slave, k, false);
    PlanStores(xs, mem, slave, k);
    PlanHeard(xs);
    StreamDecodes(Plan(xs), mem, slave, k);
  }

  /** From a START on, whatever header is in CR2 and whatever is queued: in every order of hardware events and handler
      entries the run is bounded, the bus shows nothing but what header and queue decode to, and in the end all of it,
      with the queue empty and the bus free. */
  lemma {:induction false} QueueRun(s: Sys, run: seq<Step>, slave: Slave)
    requires Requesting(s) && ValidRun(s, run, slave)
    ensures var t, goal := Ran(s, run, slave), StartGoal(s, slave);
            && |run| + Work(t) <= Work(s) && t.hw.bus <= goal.bus
            && (Stuck(t) ==> Ending(t, goal) && t.hw.phase == Idle)
  {
    RequestHeads(s, slave);
    HeadingRun(s, run, slave, StartGoal(s, slave));
  }
}
