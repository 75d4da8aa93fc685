/** quasar_i2c.c, interrupt path: the queue of pending transactions and the handler that interprets it.

    The queue carries no frame marks. A header is a CR2 word; its NBYTES and RD_WRN decide how many of the following
    bytes the handler takes as data or as pointers. The theorem EngineRun says that whole frames are interpreted
    exactly, whatever the order of hardware events and handler entries. */
module I2cEngine {
  import opened Words
  import opened Fifo
  import opened I2cBus

  /** A register transaction as the callers see it. */
  datatype Xfer =
    | WriteReg(dev: byte, reg: byte, value: byte)
    | ReadReg(dev: byte, reg: byte, ptr: word)

  /** The bytes that quasar_i2c_write and quasar_i2c_read queue, in queue order. */
  function Frame(x: Xfer): seq<byte> {
    match x
    case WriteReg(dev, reg, value) => Queued(Cr2(2, false, dev)) + [reg] + [value]
    case ReadReg(dev, reg, ptr) => Queued(Cr2(1, false, dev)) + [reg] + Queued(Cr2(1, true, dev)) + Queued(ptr)
  }

  function Frames(xs: seq<Xfer>): seq<byte> {
    if xs == [] then [] else Frame(xs[0]) + Frames(xs[1..])
  }

  // The bus format a transaction must have (UM10204 section 3.1.10): a write is one write format, a register read is
  // a one-byte write followed by a repeated START and a one-byte read.

  function Open(first: bool, sadd: nat, rd: bool): Event {
    if first then Start(sadd, rd) else Restart(sadd, rd)
  }

  function Format(x: Xfer, slave: Slave, k: nat, first: bool): seq<Event> {
    match x
    case WriteReg(dev, reg, value) => [Open(first, dev, false), Tx(reg), Tx(value)]
    case ReadReg(dev, reg, _) => [Open(first, dev, false), Tx(reg), Restart(dev, true), Rx(slave(k))]
  }

  function Reads(x: Xfer): nat { if x.ReadReg? then 1 else 0 }

  function AllReads(xs: seq<Xfer>): nat {
    if xs == [] then 0 else Reads(xs[0]) + AllReads(xs[1..])
  }

  function Formats(xs: seq<Xfer>, slave: Slave, k: nat, first: bool): seq<Event> {
    if xs == [] then [] else Format(xs[0], slave, k, first) + Formats(xs[1..], slave, k + Reads(xs[0]), false)
  }

  type Memory = map<word, byte>

  /** Memory after every read has stored its byte at its own pointer. */
  function Delivered(mem: Memory, xs: seq<Xfer>, slave: Slave, k: nat): Memory
    decreases xs
  {
    if xs == [] then mem
    else Delivered(if xs[0].ReadReg? then mem[xs[0].ptr := slave(k)] else mem, xs[1..], slave, k + Reads(xs[0]))
  }

  // The system: queue, controller, memory, and the status the running handler has latched.

  datatype Status = Status(txis: bool, rxne: bool, tc: bool)

  datatype Sys = Sys(fifo: seq<byte>, hw: Hw, mem: Memory, isr: Option<Status>)

  function Pulled(fifo: seq<byte>): word {
    AssembledBound(fifo, 4, 0);
    assert Weight(4) == 0x1_0000_0000 by {
      assert Weight(2) == 0x1_0000;
    }
    Assembled(fifo, 4, 0)
  }

  lemma PulledWord(w: word, behind: seq<byte>)
    ensures Pulled(Queued(w) + behind) == w && Rest(Queued(w) + behind, 4) == behind
  {
    WordRoundTrip(w, behind, 0);
  }

  /** RXNE: pull the pointer and store RXDR through it. */
  function StoreByte(s: Sys): Sys {
    s.(fifo := Rest(s.fifo, 4), mem := s.mem[Pulled(s.fifo) := s.hw.rxdr], hw := ReadRxdr(s.hw))
  }

  /** TC: stop if the queue is empty, otherwise load the next header and send a repeated START. */
  function StopOrChain(s: Sys): Sys {
    if s.fifo == [] then s.(hw := SetStop(s.hw))
    else s.(fifo := Rest(s.fifo, 4), hw := SetStart(WriteCr2(s.hw, Pulled(s.fifo))))
  }

  /** i2c_irq_handler_routine after its one read of ISR. */
  function Handled(s: Sys, f: Status): Sys {
    match f
    case Status(false, true, true) => StopOrChain(StoreByte(s))
    case Status(false, false, true) => StopOrChain(s)
    case Status(true, false, false) =>
      s.(fifo := Rest(s.fifo, 1), hw := WriteTxdr(s.hw, if s.fifo == [] then 0 else s.fifo[0]))
    case Status(false, true, false) => StoreByte(s)
    case _ => s
  }

  /** The hardware may act at any time, also between the handler's read of ISR and the rest of the handler. */
  datatype Step = Hardware(e: HwEvent) | Enter | Body

  predicate CanStep(s: Sys, step: Step) {
    match step
    case Hardware(e) => Enabled(s.hw, e)
    case Enter => s.isr.None? && s.hw.Flagged()
    case Body => s.isr.Some?
  }

  function Stepped(s: Sys, step: Step, slave: Slave): Sys
    requires CanStep(s, step)
  {
    match step
    case Hardware(e) => s.(hw := Apply(s.hw, e, slave))
    case Enter => s.(isr := Some(Status(s.hw.txis, s.hw.rxne, s.hw.tc)))
    case Body => Handled(s, s.isr.value).(isr := None)
  }

  predicate ValidRun(s: Sys, run: seq<Step>, slave: Slave)
    decreases run
  {
    run == [] || (CanStep(s, run[0]) && ValidRun(Stepped(s, run[0], slave), run[1..], slave))
  }

  function Ran(s: Sys, run: seq<Step>, slave: Slave): Sys
    requires ValidRun(s, run, slave)
    decreases run
  {
    if run == [] then s else Ran(Stepped(s, run[0], slave), run[1..], slave)
  }

  ghost predicate Stuck(s: Sys) { forall step :: !CanStep(s, step) }

  // The queue seen as segments: a header and the bytes or the pointer that belong to it.

  datatype Seg = Send(dev: tenbit, bytes: seq<byte>) | Recv(dev: tenbit, ptr: word) {
    predicate Wf() { Send? ==> |bytes| < 0x100 }

    function Units(): nat { if Send? then |bytes| else 1 }

    function Header(): word { Cr2(Units(), Recv?, dev) }

    function Payload(): seq<byte> { if Send? then bytes else Queued(ptr) }

    function Heard(): nat { if Send? then 0 else 1 }

    function Data(slave: Slave, k: nat): seq<Event> { if Send? then Sent(bytes) else [Rx(slave(k))] }

    function Store(mem: Memory, slave: Slave, k: nat): Memory { if Send? then mem else mem[ptr := slave(k)] }
  }

  function Plan(xs: seq<Xfer>): seq<Seg> {
    if xs == [] then [] else PlanOf(xs[0]) + Plan(xs[1..])
  }

  ghost predicate AllWf(segs: seq<Seg>) { forall i :: 0 <= i < |segs| ==> segs[i].Wf() }

  function Stream(segs: seq<Seg>): seq<byte> {
    if segs == [] then [] else Queued(segs[0].Header()) + segs[0].Payload() + Stream(segs[1..])
  }

  function Trace(segs: seq<Seg>, slave: Slave, k: nat, first: bool): seq<Event> {
    if segs == [] then []
    else
      [Open(first, segs[0].dev, segs[0].Recv?)] + segs[0].Data(slave, k)
      + Trace(segs[1..], slave, k + segs[0].Heard(), false)
  }

  /** How many bytes the device returns over a plan. */
  function HeardBy(segs: seq<Seg>): nat {
    if segs == [] then 0 else segs[0].Heard() + HeardBy(segs[1..])
  }

  function Stores(mem: Memory, segs: seq<Seg>, slave: Slave, k: nat): Memory
    decreases segs
  {
    if segs == [] then mem
    else Stores(segs[0].Store(mem, slave, k), segs[1..], slave, k + segs[0].Heard())
  }

  function PlanOf(x: Xfer): seq<Seg> {
    match x
    case WriteReg(dev, reg, value) => [Send(dev, [reg, value])]
    case ReadReg(dev, reg, ptr) => [Send(dev, [reg]), Recv(dev, ptr)]
  }

  lemma Regroup<T>(a: seq<T>, b: seq<T>, c: seq<T>, d: seq<T>, e: seq<T>)
    ensures a + b + (c + d + e) == a + b + c + d + e
  {
  }

  /** A frame is the stream of its plan, whatever follows. */
  lemma FrameIsStream(x: Xfer, tail: seq<Seg>)
    ensures Stream(PlanOf(x) + tail) == Frame(x) + Stream(tail)
  {
    hide Queued, Cr2;
    var plan := PlanOf(x) + tail;
    match x
    case WriteReg(dev, reg, value) =>
      assert plan[1..] == tail;
      assert plan[0].Payload() == [reg] + [value];
    case ReadReg(dev, reg, ptr) =>
      var read := [Recv(dev, ptr)] + tail;
      assert plan[1..] == read && read[1..] == tail;
      assert Stream(read) == Queued(Cr2(1, true, dev)) + Queued(ptr) + Stream(tail);
      assert Stream(plan) == Queued(Cr2(1, false, dev)) + [reg] + Stream(read);
      Regroup(Queued(Cr2(1, false, dev)), [reg], Queued(Cr2(1, true, dev)), Queued(ptr), Stream(tail));
  }

  lemma TraceCons(seg: Seg, tail: seq<Seg>, slave: Slave, k: nat, first: bool)
    ensures Trace([seg] + tail, slave, k, first)
         == [Open(first, seg.dev, seg.Recv?)] + seg.Data(slave, k) + Trace(tail, slave, k + seg.Heard(), false)
  {
  }

  lemma FormatIsTrace(x: Xfer, tail: seq<Seg>, slave: Slave, k: nat, first: bool)
    ensures Trace(PlanOf(x) + tail, slave, k, first)
         == Format(x, slave, k, first) + Trace(tail, slave, k + Reads(x), false)
  {
    hide Trace, Sent;
    var plan := PlanOf(x) + tail;
    match x
    case WriteReg(dev, reg, value) =>
      TraceCons(plan[0], tail, slave, k, first);
      SentTwo(reg, value);
    case ReadReg(dev, reg, ptr) =>
      var read := [Recv(dev, ptr)] + tail;
      assert plan == [Send(dev, [reg])] + read;
      TraceCons(plan[0], read, slave, k, first);
      TraceCons(read[0], tail, slave, k, false);
      SentOne(reg);
      Regroup([Open(first, dev, false)], [Tx(reg)], [Restart(dev, true)], [Rx(slave(k))],
              Trace(tail, slave, k + 1, false));
  }

  lemma SentOne(b: byte)
    ensures Sent([b]) == [Tx(b)]
  {
  }

  lemma SentTwo(b: byte, c: byte)
    ensures Sent([b, c]) == [Tx(b), Tx(c)]
  {
  }

  lemma DeliveredIsStores(x: Xfer, tail: seq<Seg>, mem: Memory, slave: Slave, k: nat)
    ensures Stores(mem, PlanOf(x) + tail, slave, k)
         == Stores(if x.ReadReg? then mem[x.ptr := slave(k)] else mem, tail, slave, k + Reads(x))
  {
  }

  /** The frames of a list of transactions are the stream of a well-formed plan. */
  lemma {:induction false} PlanStream(xs: seq<Xfer>)
    ensures AllWf(Plan(xs)) && Stream(Plan(xs)) == Frames(xs)
    ensures xs != [] ==> Plan(xs) != [] && Plan(xs)[0].Send?
  {
    if xs != [] {
      PlanStream(xs[1..]);
      FrameIsStream(xs[0], Plan(xs[1..]));
    }
  }

  /** The plan has the bus format of the transactions. */
  lemma {:induction false} PlanTrace(xs: seq<Xfer>, slave: Slave, k: nat, first: bool)
    ensures Trace(Plan(xs), slave, k, first) == Formats(xs, slave, k, first)
  {
    if xs != [] {
      PlanTrace(xs[1..], slave, k + Reads(xs[0]), false);
      FormatIsTrace(xs[0], Plan(xs[1..]), slave, k, first);
    }
  }

  lemma {:induction false} PlanHeard(xs: seq<Xfer>)
    ensures HeardBy(Plan(xs)) == AllReads(xs)
  {
    if xs != [] {
      PlanHeard(xs[1..]);
      var tail := Plan(xs[1..]);
      match xs[0]
      case WriteReg(_, _, _) => assert (PlanOf(xs[0]) + tail)[1..] == tail;
      case ReadReg(dev, _, ptr) =>
        assert (PlanOf(xs[0]) + tail)[1..] == [Recv(dev, ptr)] + tail && ([Recv(dev, ptr)] + tail)[1..] == tail;
    }
  }

  /** The plan has the memory effect of the transactions. */
  lemma {:induction false} PlanStores(xs: seq<Xfer>, mem: Memory, slave: Slave, k: nat)
    ensures Stores(mem, Plan(xs), slave, k) == Delivered(mem, xs, slave, k)
    decreases xs
  {
    if xs != [] {
      var x := xs[0];
      PlanStores(xs[1..], if x.ReadReg? then mem[x.ptr := slave(k)] else mem, slave, k + Reads(x));
      DeliveredIsStores(x, Plan(xs[1..]), mem, slave, k);
    }
  }

  // The framing invariant.

  /** Where the run must end. */
  datatype Goal = Goal(bus: seq<Event>, mem: Memory, heard: nat)

  /** Ghost position: the segment on the bus, its place in the plan, and how many of its units software has moved. */
  datatype Pos = Pos(g: Segment, cur: Seg, rest: seq<Seg>, moved: nat)

  /** The latched status is still true of the controller, and TC alone was latched only with RXNE served. */
  ghost predicate LatchHolds(h: Hw, isr: Option<Status>) {
    isr.Some? ==>
      var f := isr.value;
      && (f.txis ==> h.txis) && (f.rxne ==> h.rxne) && (f.tc ==> h.tc)
      && (f.txis || f.rxne || f.tc)
      && (f.tc && !f.rxne ==> !h.rxne)
  }

  /** The segment of p is the one on the bus. */
  ghost predicate Placed(p: Pos) {
    && p.cur.Wf() && AllWf(p.rest) && p.moved <= p.cur.Units()
    && p.g.n == p.cur.Units()
    && (p.g.open == Open(true, p.cur.dev, p.cur.Recv?) || p.g.open == Open(false, p.cur.dev, p.cur.Recv?))
  }

  ghost predicate OnBus(h: Hw, p: Pos, slave: Slave) {
    if p.cur.Send? then p.moved <= |p.cur.bytes| && InSegment(h, p.g, slave, p.cur.bytes[..p.moved], 0)
    else InSegment(h, p.g, slave, [], p.moved)
  }

  /** The queue holds what the current segment still needs, then the rest of the plan. */
  ghost predicate Framed(fifo: seq<byte>, p: Pos) {
    fifo == (if p.cur.Send? then p.cur.bytes[if p.moved <= |p.cur.bytes| then p.moved else 0..]
             else if p.moved == 0 then Queued(p.cur.ptr) else []) + Stream(p.rest)
  }

  /** What is still to come on the bus and in memory leads to the goal. */
  ghost predicate Aims(mem: Memory, p: Pos, slave: Slave, goal: Goal) {
    var k := p.g.k + p.cur.Heard();
    && goal.mem == Stores(if p.moved == 0 then p.cur.Store(mem, slave, p.g.k) else mem, p.rest, slave, k)
    && goal.bus == p.g.before + [p.g.open] + p.cur.Data(slave, p.g.k) + Trace(p.rest, slave, k, false) + [Stop]
    && goal.heard == k + HeardBy(p.rest)
  }

  ghost predicate Active(s: Sys, p: Pos, slave: Slave, goal: Goal) {
    Placed(p) && OnBus(s.hw, p, slave) && Framed(s.fifo, p) && Aims(s.mem, p, slave, goal) && LatchHolds(s.hw, s.isr)
  }

  ghost predicate Ending(s: Sys, goal: Goal) {
    Closing(s.hw, goal.bus) && s.fifo == [] && s.mem == goal.mem && s.hw.heard == goal.heard && s.isr.None?
  }

  ghost predicate Inv(s: Sys, p: Pos, slave: Slave, goal: Goal) {
    Active(s, p, slave, goal) || Ending(s, goal)
  }

  /** The position after a step: the same segment or the next one. */
  ghost predicate Follows(p: Pos, q: Pos) {
    || (q.g == p.g && q.cur == p.cur && q.rest == p.rest)
    || (p.rest != [] && q.cur == p.rest[0] && q.rest == p.rest[1..] && q.g.open == Open(false, q.cur.dev, q.cur.Recv?))
  }

  /** Every step brings the run nearer to its end. */
  function Distance(s: Sys): nat {
    var h := s.hw;
    1000 * |s.fifo| + (if h.start then 3000 else 0) + 10 * h.left
    + (if h.txdr.Some? then 3 else 0) + (if h.txis then 0 else 5) + (if h.tc then 0 else 1)
    + (if s.isr.None? then 1 else 0)
    + (if h.phase == Idle then 0 else if h.stop then 10 else 60)
  }

  lemma HardwareKeeps(s: Sys, e: HwEvent, p: Pos, slave: Slave, goal: Goal)
    requires Active(s, p, slave, goal) && Enabled(s.hw, e)
    ensures Active(s.(hw := Apply(s.hw, e, slave)), p, slave, goal)
    ensures Distance(s.(hw := Apply(s.hw, e, slave))) < Distance(s)
  {
    var loaded := if p.cur.Send? then p.cur.bytes[..p.moved] else [];
    SegmentStable(s.hw, e, p.g, slave, loaded, if p.cur.Send? then 0 else p.moved);
  }

  /** TXIS: the next queued byte belongs to the current segment and goes to TXDR. */
  lemma LoadKeeps(s: Sys, p: Pos, slave: Slave, goal: Goal)
    requires Active(s, p, slave, goal) && s.isr == Some(Status(true, false, false))
    requires p.cur.Send? && p.moved < |p.cur.bytes|
    ensures Active(Stepped(s, Body, slave), p.(moved := p.moved + 1), slave, goal)
    ensures Distance(Stepped(s, Body, slave)) < Distance(s)
  {
    hide Aims, Stream, Stores, Trace;
    var loaded, b := p.cur.bytes[..p.moved], p.cur.bytes[p.moved];
    NextUnit(s.fifo, p);
    LoadInSegment(s.hw, p.g, slave, loaded, b);
    var h := WriteTxdr(s.hw, b);
    assert p.cur.bytes[..p.moved + 1] == loaded + [b];
    assert InSegment(h, p.g, slave, loaded + [b], 0) && OnBus(h, p.(moved := p.moved + 1), slave);
    hide Framed, InSegment, OnBus;
    assert Stepped(s, Body, slave) == s.(fifo := s.fifo[1..], hw := h, isr := None);
    AimAhead(s.mem, p, slave, goal);
  }

  lemma NextUnit(fifo: seq<byte>, p: Pos)
    requires p.cur.Send? && p.moved < |p.cur.bytes| && Framed(fifo, p)
    ensures fifo != [] && fifo[0] == p.cur.bytes[p.moved] && Framed(fifo[1..], p.(moved := p.moved + 1))
  {
  }

  lemma AimAhead(mem: Memory, p: Pos, slave: Slave, goal: Goal)
    requires p.cur.Send? && Aims(mem, p, slave, goal)
    ensures Aims(mem, p.(moved := p.moved + 1), slave, goal)
  {
  }

  /** RXNE: the next four bytes are the pointer of the current read. */
  lemma StoreKeeps(s: Sys, p: Pos, slave: Slave, goal: Goal)
    requires Active(s, p, slave, goal) && s.hw.rxne && p.cur.Recv?
    ensures var t := StoreByte(s).(isr := None);
            && Active(t, p.(moved := 1), slave, goal) && !t.hw.rxne && t.hw.tc == s.hw.tc
            && Distance(t) + 3000 < Distance(s)
  {
    hide Queued, Assembled, Image, Cr2;
    TakeInSegment(s.hw, p.g, slave, p.moved);
    PulledWord(p.cur.ptr, Stream(p.rest));
  }

  lemma SegmentDone(s: Sys, p: Pos, slave: Slave, goal: Goal)
    requires Active(s, p, slave, goal) && s.hw.tc && !s.hw.rxne
    ensures p.moved == p.cur.Units() && s.fifo == Stream(p.rest) && s.hw.heard == p.g.k + p.cur.Heard()
    ensures s.hw.bus == p.g.before + [p.g.open] + p.cur.Data(slave, p.g.k)
    ensures !s.hw.start && !s.hw.stop && s.hw.phase != Idle && s.hw.left == 0 && s.hw.txdr.None? && !s.hw.txis
  {
    var Pos(g, cur, rest, moved) := p;
    SegmentComplete(s.hw, g, slave, if cur.Send? then cur.bytes[..moved] else [], if cur.Send? then 0 else moved);
    if cur.Send? {
      assert cur.bytes[..moved] == cur.bytes;
    } else {
      assert Received(slave, g.k, 1) == [Rx(slave(g.k))];
    }
  }

  /** TC with an empty queue: the plan is done. */
  lemma StopKeeps(s: Sys, p: Pos, slave: Slave, goal: Goal)
    requires Active(s, p, slave, goal) && s.hw.tc && !s.hw.rxne && s.isr.None? && p.rest == []
    ensures Ending(StopOrChain(s), goal) && Distance(StopOrChain(s)) + 10 < Distance(s)
  {
    SegmentDone(s, p, slave, goal);
    assert Trace(p.rest, slave, p.g.k + p.cur.Heard(), false) == [];
    assert goal.bus == s.hw.bus + [Stop];
  }

  /** The segment that follows p in its plan, on the bus as it now is. */
  function Next(s: Sys, p: Pos): Pos
    requires p.rest != []
  {
    var next := p.rest[0];
    Pos(Segment(s.hw.bus, Open(false, next.dev, next.Recv?), next.Units(), s.hw.heard), next, p.rest[1..], 0)
  }

  /** A CR2 word that addresses the device of a segment, in its direction, for all its units. */
  ghost predicate IsHeader(w: word, seg: Seg) {
    Sadd(w) == seg.dev && ReadBit(w) == seg.Recv? && NBytes(w) == seg.Units() && !StartBit(w) && !StopBit(w)
  }

  lemma HeaderIsHeader(seg: Seg)
    requires seg.Wf()
    ensures IsHeader(seg.Header(), seg)
  {
    Cr2Fields(seg.Units(), seg.Recv?, seg.dev);
  }

  /** TC with a non-empty queue: the next four bytes are the header of the next segment. */
  lemma ChainKeeps(s: Sys, p: Pos, slave: Slave, goal: Goal)
    requires Active(s, p, slave, goal) && s.hw.tc && !s.hw.rxne && s.isr.None? && p.rest != []
    ensures Active(StopOrChain(s), Next(s, p), slave, goal) && Distance(StopOrChain(s)) + 10 < Distance(s)
  {
    SegmentDone(s, p, slave, goal);
    NextGoal(s, p, slave, goal);
    HeaderIsHeader(p.rest[0]);
    ChainWith(s, p, slave, goal, p.rest[0].Header());
  }

  lemma ChainWith(s: Sys, p: Pos, slave: Slave, goal: Goal, w: word)
    requires p.rest != [] && AllWf(p.rest) && IsHeader(w, p.rest[0])
    requires s.hw.tc && !s.hw.rxne && s.isr.None?
    requires !s.hw.start && !s.hw.stop && s.hw.phase != Idle && s.hw.left == 0 && s.hw.txdr.None? && !s.hw.txis
    requires s.fifo == Queued(w) + p.rest[0].Payload() + Stream(p.rest[1..])
    requires Aims(s.mem, Next(s, p), slave, goal)
    ensures Active(StopOrChain(s), Next(s, p), slave, goal) && Distance(StopOrChain(s)) + 10 < Distance(s)
  {
    hide Assembled, Queued, Aims;
    var q, behind := Next(s, p), p.rest[0].Payload() + Stream(p.rest[1..]);
    PulledHeader(w, p.rest[0].Payload(), Stream(p.rest[1..]));
    ChainedSegment(s.hw, w, q.g, slave);
    FreshSegment(q, SetStart(WriteCr2(s.hw, w)), slave);
    assert Framed(behind, q);
    hide Pulled, InSegment, Framed, Placed, OnBus;
    assert StopOrChain(s) == s.(fifo := behind, hw := SetStart(WriteCr2(s.hw, w)));
  }

  lemma FreshSegment(q: Pos, h: Hw, slave: Slave)
    requires q.moved == 0 && InSegment(h, q.g, slave, [], 0)
    ensures OnBus(h, q, slave)
  {
  }

  lemma ChainedSegment(h: Hw, w: word, g: Segment, slave: Slave)
    requires !h.start && !h.stop && h.phase != Idle && h.left == 0 && h.txdr.None? && !h.txis && !h.rxne
    requires !StartBit(w) && !StopBit(w) && g == Segment(h.bus, Restart(Sadd(w), ReadBit(w)), NBytes(w), h.heard)
    ensures InSegment(SetStart(WriteCr2(h, w)), g, slave, [], 0)
  {
  }

  lemma NextGoal(s: Sys, p: Pos, slave: Slave, goal: Goal)
    requires Aims(s.mem, p, slave, goal) && p.rest != [] && (p.cur.Recv? ==> p.moved > 0)
             && s.hw.heard == p.g.k + p.cur.Heard()
    requires s.hw.bus == p.g.before + [p.g.open] + p.cur.Data(slave, p.g.k)
    ensures Aims(s.mem, Next(s, p), slave, goal)
  {
    var q := Next(s, p);
    var k := q.g.k + q.cur.Heard();
    Closed(s.hw.bus, [q.g.open], q.cur.Data(slave, q.g.k), Trace(q.rest, slave, k, false), [Stop]);
  }

  lemma CompletionKeeps(s: Sys, p: Pos, slave: Slave, goal: Goal) returns (q: Pos)
    requires Active(s, p, slave, goal) && s.hw.tc && !s.hw.rxne && s.isr.None?
    ensures Follows(p, q) && Inv(StopOrChain(s), q, slave, goal) && Distance(StopOrChain(s)) + 10 < Distance(s)
  {
    if p.rest == [] {
      StopKeeps(s, p, slave, goal);
      q := p;
    } else {
      ChainKeeps(s, p, slave, goal);
      q := Next(s, p);
    }
  }

  /** The only status combinations the handler can meet. */
  lemma LatchCases(s: Sys, p: Pos, slave: Slave, goal: Goal)
    requires Active(s, p, slave, goal) && s.isr.Some?
    ensures var f := s.isr.value;
            && (f.txis ==> f == Status(true, false, false) && p.cur.Send? && p.moved < |p.cur.bytes|)
            && (f.rxne ==> p.cur.Recv? && s.hw.rxne)
            && (f.tc ==> s.hw.tc)
            && (!f.txis && !f.rxne ==> f.tc && !s.hw.rxne)
  {
  }

  /** Whatever status was latched, the handler body keeps the framing. */
  lemma BodyKeeps(s: Sys, p: Pos, slave: Slave, goal: Goal) returns (q: Pos)
    requires Active(s, p, slave, goal) && s.isr.Some?
    ensures Follows(p, q) && Inv(Stepped(s, Body, slave), q, slave, goal)
            && Distance(Stepped(s, Body, slave)) < Distance(s)
  {
    hide Active, Ending, Assembled, Distance, StoreByte, StopOrChain, Stepped;
    var f := s.isr.value;
    LatchCases(s, p, slave, goal);
    if f.txis {
      LoadKeeps(s, p, slave, goal);
      q := p.(moved := p.moved + 1);
    } else {
      q := CompleteOrStore(s, p, slave, goal);
    }
  }

  lemma CompleteOrStore(s: Sys, p: Pos, slave: Slave, goal: Goal) returns (q: Pos)
    requires Active(s, p, slave, goal) && s.isr.Some? && !s.isr.value.txis
    ensures Follows(p, q) && Inv(Stepped(s, Body, slave), q, slave, goal)
            && Distance(Stepped(s, Body, slave)) < Distance(s)
  {
    hide Active, Ending, Assembled, Pulled, Distance;
    var f := s.isr.value;
    LatchCases(s, p, slave, goal);
    if f.rxne {
      StoreKeeps(s, p, slave, goal);
      q := p.(moved := 1);
      if f.tc {
        q := CompletionKeeps(StoreByte(s).(isr := None), q, slave, goal);
      }
    } else {
      q := p;
      LatchDropped(s, p, slave, goal);
      q := CompletionKeeps(s.(isr := None), p, slave, goal);
    }
  }

  lemma LatchDropped(s: Sys, p: Pos, slave: Slave, goal: Goal)
    requires Active(s, p, slave, goal)
    ensures Active(s.(isr := None), p, slave, goal) && Distance(s.(isr := None)) <= Distance(s) + 1
  {
  }

  lemma StepKeeps(s: Sys, step: Step, p: Pos, slave: Slave, goal: Goal) returns (q: Pos)
    requires Inv(s, p, slave, goal) && CanStep(s, step)
    ensures Follows(p, q) && Inv(Stepped(s, step, slave), q, slave, goal)
            && Distance(Stepped(s, step, slave)) < Distance(s)
  {
    q := p;
    if Active(s, p, slave, goal) {
      match step
      case Hardware(e) => HardwareKeeps(s, e, p, slave, goal);
      case Enter =>
      case Body => q := BodyKeeps(s, p, slave, goal);
    }
  }

  lemma {:induction false} RunKeeps(s: Sys, run: seq<Step>, p: Pos, slave: Slave, goal: Goal) returns (q: Pos)
    requires Inv(s, p, slave, goal) && ValidRun(s, run, slave)
    ensures Inv(Ran(s, run, slave), q, slave, goal)
    ensures |run| + Distance(Ran(s, run, slave)) <= Distance(s)
    decreases run
  {
    q := p;
    if run != [] {
      q := StepKeeps(s, run[0], p, slave, goal);
      q := RunKeeps(Stepped(s, run[0], slave), run[1..], q, slave, goal);
    }
  }

  /** The engine never waits for something that cannot come. */
  lemma StuckMeansEnded(s: Sys, p: Pos, slave: Slave, goal: Goal)
    requires Inv(s, p, slave, goal) && Stuck(s)
    ensures Ending(s, goal) && s.hw.phase == Idle
  {
    assert !CanStep(s, Enter) && !CanStep(s, Body);
    assert !CanStep(s, Hardware(Address)) && !CanStep(s, Hardware(Request)) && !CanStep(s, Hardware(Shift));
    assert !CanStep(s, Hardware(Arrive)) && !CanStep(s, Hardware(Complete)) && !CanStep(s, Hardware(Halt));
  }

  lemma NothingBeyondGoal(s: Sys, p: Pos, slave: Slave, goal: Goal)
    requires Inv(s, p, slave, goal)
    ensures s.hw.bus <= goal.bus
  {
    if Active(s, p, slave, goal) {
      hide Trace, Stores, HeardBy, Framed, Stream, InSegment;
      var n := |s.hw.bus|;
      var shown := p.g.before + [p.g.open] + p.cur.Data(slave, p.g.k);
      SegmentShows(s.hw, p, slave);
      assert shown == goal.bus[..|shown|];
      assert s.hw.bus == goal.bus[..|shown|][..n] == goal.bus[..n];
    }
  }

  lemma SegmentShows(h: Hw, p: Pos, slave: Slave)
    requires Placed(p) && OnBus(h, p, slave)
    ensures h.bus <= p.g.before + [p.g.open] + p.cur.Data(slave, p.g.k)
  {
    if p.cur.Send? {
      var loaded := p.cur.bytes[..p.moved];
      assert Sent(loaded) == Sent(p.cur.bytes)[..p.moved];
      if p.moved > 0 {
        assert Sent(loaded[..p.moved - 1]) == Sent(p.cur.bytes)[..p.moved - 1];
      }
    } else {
      assert Received(slave, p.g.k, 1) == [Rx(slave(p.g.k))];
      assert Received(slave, p.g.k, 0) == [];
    }
  }

  /** START is requested on a free bus and not yet sent. */
  predicate Armed(h: Hw) {
    h.start && h.phase == Idle && !h.stop && h.left == 0 && h.txdr.None? && !h.Flagged()
  }

  /** The first header of a plan is in CR2 with START requested, everything else is queued. */
  ghost predicate LaunchedPlan(s: Sys, segs: seq<Seg>) {
    && segs != [] && AllWf(segs) && Armed(s.hw) && s.isr.None?
    && s.hw.cr2 == segs[0].Header() && s.fifo == segs[0].Payload() + Stream(segs[1..])
  }

  function PlanTarget(s: Sys, segs: seq<Seg>, slave: Slave): Goal {
    Goal(s.hw.bus + Trace(segs, slave, s.hw.heard, true) + [Stop],
         Stores(s.mem, segs, slave, s.hw.heard), s.hw.heard + HeardBy(segs))
  }

  lemma PlanIsActive(s: Sys, segs: seq<Seg>, slave: Slave)
    requires LaunchedPlan(s, segs)
    ensures Active(s, FirstPos(s.hw, segs), slave, PlanTarget(s, segs, slave))
  {
    hide Assembled, Queued, OnBus, Framed, Aims, Placed, Trace, Stores, HeardBy;
    var p := FirstPos(s.hw, segs);
    FirstFramed(s, segs);
    LaunchedOnBus(s.hw, segs, slave);
    FirstGoal(s.mem, segs, slave, PlanTarget(s, segs, slave), p);
    FirstPlaced(s.hw, segs);
  }

  /** The state a call leaves behind: the first header is in CR2 with START requested, everything else is queued. */
  ghost predicate Launched(s: Sys, xs: seq<Xfer>) {
    xs != [] && Armed(s.hw) && s.isr.None? && s.hw.cr2 == Pulled(Frames(xs)) && s.fifo == Rest(Frames(xs), 4)
  }

  function Target(s: Sys, xs: seq<Xfer>, slave: Slave): Goal {
    Goal(s.hw.bus + Formats(xs, slave, s.hw.heard, true) + [Stop],
         Delivered(s.mem, xs, slave, s.hw.heard), s.hw.heard + AllReads(xs))
  }

  lemma LaunchedIsPlan(s: Sys, xs: seq<Xfer>, slave: Slave)
    requires Launched(s, xs)
    ensures LaunchedPlan(s, Plan(xs)) && PlanTarget(s, Plan(xs), slave) == Target(s, xs, slave)
  {
    var k, segs := s.hw.heard, Plan(xs);
    PlanStream(xs);
    PlanTrace(xs, slave, k, true);
    PlanStores(xs, s.mem, slave, k);
    PlanHeard(xs);
    hide Assembled, Queued, Frames, Formats, Delivered, Plan, Trace, Stores, HeardBy;
    PulledHeader(segs[0].Header(), segs[0].Payload(), Stream(segs[1..]));
  }

  function FirstPos(h: Hw, segs: seq<Seg>): Pos
    requires segs != []
  {
    Pos(Segment(h.bus, Open(true, segs[0].dev, segs[0].Recv?), segs[0].Units(), h.heard), segs[0], segs[1..], 0)
  }

  lemma FirstPlaced(h: Hw, segs: seq<Seg>)
    requires segs != [] && AllWf(segs)
    ensures Placed(FirstPos(h, segs))
  {
  }

  lemma FirstFramed(s: Sys, segs: seq<Seg>)
    requires segs != [] && s.fifo == segs[0].Payload() + Stream(segs[1..])
    ensures Framed(s.fifo, FirstPos(s.hw, segs))
  {
    hide Queued;
  }

  lemma LaunchedOnBus(h: Hw, segs: seq<Seg>, slave: Slave)
    requires segs != [] && AllWf(segs) && h.cr2 == segs[0].Header() && Armed(h)
    ensures OnBus(h, FirstPos(h, segs), slave)
  {
    hide Cr2, Sadd, ReadBit, NBytes;
    HeaderIsHeader(segs[0]);
    LaunchedSegment(h, FirstPos(h, segs).g, slave);
    hide InSegment;
    FreshSegment(FirstPos(h, segs), h, slave);
  }

  lemma PulledHeader(w: word, payload: seq<byte>, behind: seq<byte>)
    ensures Pulled(Queued(w) + payload + behind) == w && Rest(Queued(w) + payload + behind, 4) == payload + behind
  {
    hide Assembled, Queued;
    assert Queued(w) + payload + behind == Queued(w) + (payload + behind);
    PulledWord(w, payload + behind);
  }

  lemma LaunchedSegment(h: Hw, g: Segment, slave: Slave)
    requires Armed(h)
    requires g == Segment(h.bus, Start(Sadd(h.cr2), ReadBit(h.cr2)), NBytes(h.cr2), h.heard)
    ensures InSegment(h, g, slave, [], 0)
  {
  }

  lemma FirstGoal(mem: Memory, segs: seq<Seg>, slave: Slave, goal: Goal, p: Pos)
    requires segs != [] && p.cur == segs[0] && p.rest == segs[1..] && p.moved == 0
    requires p.g.open == Open(true, segs[0].dev, segs[0].Recv?)
    requires goal.bus == p.g.before + Trace(segs, slave, p.g.k, true) + [Stop]
    requires goal.mem == Stores(mem, segs, slave, p.g.k) && goal.heard == p.g.k + HeardBy(segs)
    ensures Aims(mem, p, slave, goal)
  {
    var k := p.g.k + p.cur.Heard();
    Closed(p.g.before, [p.g.open], p.cur.Data(slave, p.g.k), Trace(p.rest, slave, k, false), [Stop]);
  }

  lemma Closed<T>(a: seq<T>, b: seq<T>, c: seq<T>, d: seq<T>, e: seq<T>)
    ensures a + (b + c + d) + e == a + b + c + d + e
  {
  }

  /** For every plan and every order of hardware events and handler entries the run ends after boundedly many steps;
      until then the bus is a prefix of the plan's trace; and when nothing more can happen the plan has been carried
      out, the queue is empty and the bus is free. */
  lemma {:induction false} PlanRun(s: Sys, segs: seq<Seg>, run: seq<Step>, slave: Slave)
    requires LaunchedPlan(s, segs) && ValidRun(s, run, slave)
    ensures var t, goal := Ran(s, run, slave), PlanTarget(s, segs, slave);
            && |run| + Distance(t) <= Distance(s)
            && t.hw.bus <= goal.bus
            && (Stuck(t) ==> Ending(t, goal) && t.hw.phase == Idle)
  {
    var goal := PlanTarget(s, segs, slave);
    PlanIsActive(s, segs, slave);
    var p := RunKeeps(s, run, FirstPos(s.hw, segs), slave, goal);
    var t := Ran(s, run, slave);
    NothingBeyondGoal(t, p, slave, goal);
    if Stuck(t) {
      StuckMeansEnded(t, p, slave, goal);
    }
  }

  /** For every list of whole frames and every order of hardware events and handler entries: the run ends after
      boundedly many steps; until then the bus is a prefix of the transactions in order, joined by repeated STARTs and
      closed by one STOP; and when nothing more can happen the bus is exactly that, every read byte is at its own
      pointer, the queue is empty and the bus is free. */
  lemma {:induction false} EngineRun(s: Sys, xs: seq<Xfer>, run: seq<Step>, slave: Slave)
    requires Launched(s, xs) && ValidRun(s, run, slave)
    ensures var t := Ran(s, run, slave);
            && |run| + Distance(t) <= Distance(s)
            && t.hw.bus <= s.hw.bus + Formats(xs, slave, s.hw.heard, true) + [Stop]
            && (Stuck(t) ==>
                  && t.hw.bus == s.hw.bus + Formats(xs, slave, s.hw.heard, true) + [Stop]
                  && t.mem == Delivered(s.mem, xs, slave, s.hw.heard)
                  && t.hw.heard == s.hw.heard + AllReads(xs)
                  && t.fifo == [] && t.hw.phase == Idle && Closing(t.hw, t.hw.bus) && t.isr.None?)
  {
    LaunchedIsPlan(s, xs, slave);
    PlanRun(s, Plan(xs), run, slave);
  }
}
