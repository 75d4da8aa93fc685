/** The I2C controller and its bus: the registers the driver touches and every order in which the hardware may act.

    The addressed device acknowledges. `slave(k)` is the k-th byte it returns. */
module I2cBus {
  import opened Words

  /** What an observer of SCL/SDA sees (UM10204 sections 3.1.4 and 3.1.10). `sadd` is the SADD field of CR2. */
  datatype Event =
    | Start(sadd: nat, rd: bool)
    | Restart(sadd: nat, rd: bool)
    | Tx(b: byte)
    | Rx(b: byte)
    | Stop

  type Slave = nat -> byte

  /** The SADD field. */
  type tenbit = x: int | 0 <= x < 0x400

  datatype Phase = Idle | Sending | Receiving

  /** `left` counts the bytes of NBYTES not yet moved on the bus; `heard` the bytes the device has returned so far. */
  datatype Hw = Hw(
    cr2: word, start: bool, stop: bool,
    phase: Phase, left: nat,
    txdr: Option<byte>, rxdr: byte,
    txis: bool, rxne: bool, tc: bool,
    heard: nat, bus: seq<Event>)
  {
    predicate Busy() { phase != Idle }

    predicate Flagged() { txis || rxne || tc }
  }

  // CR2 fields: SADD bits 0-9, RD_WRN bit 10, START bit 13, STOP bit 14, NBYTES bits 16-23.
  function Sadd(cr2: word): tenbit { cr2 % 0x400 }

  predicate ReadBit(cr2: word) { cr2 / 0x400 % 2 == 1 }

  predicate StartBit(cr2: word) { cr2 / 0x2000 % 2 == 1 }

  predicate StopBit(cr2: word) { cr2 / 0x4000 % 2 == 1 }

  function NBytes(cr2: word): nat { cr2 / 0x1_0000 % 0x100 }

  /** The CR2 value the driver builds; the NBYTES mask drops the ninth bit of a count of 256. */
  function Cr2(n: nat, rd: bool, sadd: tenbit): word {
    n % 0x100 * 0x1_0000 + (if rd then 0x400 else 0) + sadd
  }

  lemma Cr2Fields(n: nat, rd: bool, sadd: tenbit)
    ensures var w := Cr2(n, rd, sadd);
            Sadd(w) == sadd && ReadBit(w) == rd && NBytes(w) == n % 0x100 && !StartBit(w) && !StopBit(w)
  {
    var m, r := n % 0x100, if rd then 1 else 0;
    var w: int := Cr2(n, rd, sadd);
    assert w == m * 0x1_0000 + r * 0x400 + sadd;
    assert w / 0x400 == m * 0x40 + r && w % 0x400 == sadd;
    assert w / 0x2000 == m * 8 && w / 0x4000 == m * 4 && w / 0x1_0000 == m;
  }

  lemma Remainder(q: nat, r: nat)
    requires r < 0x400
    ensures (0x400 * q + r) / 0x400 == q && (0x400 * q + r) % 0x400 == r
  {
  }

  lemma Parity(n: nat, c: nat)
    ensures (2 * n + c) % 2 == c % 2
  {
  }

  /** Any four bytes as a CR2 word. */
  lemma WordFields(a: byte, b: byte, c: byte, d: byte)
    ensures var w: word := a as int * 0x100_0000 + b as int * 0x1_0000 + c as int * 0x100 + d;
            && Sadd(w) == c as int % 4 * 0x100 + d && NBytes(w) == b && (ReadBit(w) <==> c as int / 4 % 2 == 1)
            && (c < 0x20 ==> !StartBit(w)) && (c < 0x40 ==> !StopBit(w))
  {
    var x, y, z, t := a as int, b as int, c as int, d as int;
    var w: int := x * 0x100_0000 + y * 0x1_0000 + z * 0x100 + t;
    var q, r := x * 0x4000 + y * 0x40 + z / 4, z % 4 * 0x100 + t;
    assert w == 0x400 * q + r;
    Remainder(q, r);
    assert q == 2 * (x * 0x2000 + y * 0x20) + z / 4;
    Parity(x * 0x2000 + y * 0x20, z / 4);
    assert w / 0x1_0000 == x * 0x100 + y;
    if z < 0x20 {
      assert w / 0x2000 == x * 0x800 + y * 8;
    }
    if z < 0x40 {
      assert w / 0x4000 == x * 0x400 + y * 4;
    }
  }

  // Register accesses of the driver.

  /** Writing CR2; a 1 in START or STOP requests that condition and clears TC, a 0 there does nothing. */
  function WriteCr2(h: Hw, w: word): Hw {
    h.(cr2 := w,
       start := h.start || StartBit(w),
       stop := h.stop || StopBit(w),
       tc := h.tc && !StartBit(w) && !StopBit(w))
  }

  function SetStart(h: Hw): Hw { h.(start := true, tc := false) }

  function SetStop(h: Hw): Hw { h.(stop := true, tc := false) }

  function WriteTxdr(h: Hw, b: byte): Hw { h.(txdr := Some(b), txis := false) }

  function ReadRxdr(h: Hw): Hw { h.(rxne := false) }

  /** What the controller does on its own: send START and the address, ask for a byte, move a byte out, take a byte
      in, report the end of NBYTES (SCL is then stretched), send STOP. A START requested during a transfer waits for the
      end of NBYTES. */
  datatype HwEvent = Address | Request | Shift | Arrive | Complete | Halt

  predicate Enabled(h: Hw, e: HwEvent) {
    match e
    case Address => h.start && (h.phase == Idle || (h.left == 0 && h.txdr.None? && !h.stop))
    case Request => h.phase == Sending && h.left > 0 && h.txdr.None? && !h.txis
    case Shift => h.phase == Sending && h.left > 0 && h.txdr.Some?
    case Arrive => h.phase == Receiving && h.left > 0 && !h.rxne
    case Complete => h.phase != Idle && !h.start && !h.stop && h.left == 0 && h.txdr.None? && !h.tc
    case Halt => h.stop && h.phase != Idle && h.left == 0 && h.txdr.None?
  }

  function Apply(h: Hw, e: HwEvent, slave: Slave): Hw
    requires Enabled(h, e)
  {
    match e
    case Address =>
      var rd := ReadBit(h.cr2);
      h.(start := false, phase := if rd then Receiving else Sending, left := NBytes(h.cr2),
         bus := h.bus + [if h.phase == Idle then Start(Sadd(h.cr2), rd) else Restart(Sadd(h.cr2), rd)])
    case Request => h.(txis := true)
    case Shift => h.(txdr := None, left := h.left - 1, bus := h.bus + [Tx(h.txdr.value)])
    case Arrive =>
      h.(rxdr := slave(h.heard), rxne := true, heard := h.heard + 1, left := h.left - 1,
         bus := h.bus + [Rx(slave(h.heard))])
    case Complete => h.(tc := true)
    case Halt => h.(stop := false, phase := Idle, bus := h.bus + [Stop])
  }

  /** The hardware acting while software does nothing; events that cannot happen are skipped. */
  function Advanced(h: Hw, events: seq<HwEvent>, slave: Slave): Hw
    decreases events
  {
    if events == [] then h
    else Advanced(if Enabled(h, events[0]) then Apply(h, events[0], slave) else h, events[1..], slave)
  }

  lemma {:induction false} AdvancedConcat(h: Hw, events: seq<HwEvent>, more: seq<HwEvent>, slave: Slave)
    ensures Advanced(h, events + more, slave) == Advanced(Advanced(h, events, slave), more, slave)
    decreases events
  {
    if events == [] {
      assert events + more == more;
    } else {
      assert (events + more)[1..] == events[1..] + more;
      AdvancedConcat(if Enabled(h, events[0]) then Apply(h, events[0], slave) else h, events[1..], more, slave);
    }
  }

  // One addressed segment of a transfer, as both the interrupt engine and the polling calls run it.

  function Sent(bytes: seq<byte>): (s: seq<Event>)
    ensures |s| == |bytes|
  {
    seq(|bytes|, i requires 0 <= i < |bytes| => Tx(bytes[i]))
  }

  function Received(slave: Slave, k: nat, n: nat): (s: seq<Event>)
    ensures |s| == n
  {
    seq(n, i requires 0 <= i => Rx(slave(k + i)))
  }

  /** A segment: the bus before it, its opening condition, its NBYTES, and `heard` at its start. */
  datatype Segment = Segment(before: seq<Event>, open: Event, n: nat, k: nat) {
    predicate Reads() { !open.Stop? && !open.Tx? && !open.Rx? && open.rd }
  }

  /** The bus has seen the opening condition and the bytes software loaded, except the one still in TXDR. */
  ghost predicate SendingSegment(h: Hw, g: Segment, loaded: seq<byte>) {
    && h.phase == Sending && h.heard == g.k && !h.rxne
    && |loaded| <= g.n
    && (h.txdr.None? ==> h.left == g.n - |loaded| && h.bus == g.before + [g.open] + Sent(loaded))
    && (h.txdr.Some? ==>
          && |loaded| > 0 && !h.txis && h.txdr.value == loaded[|loaded| - 1]
          && h.left == g.n - |loaded| + 1
          && h.bus == g.before + [g.open] + Sent(loaded[..|loaded| - 1]))
    && (h.txis ==> h.left > 0)
    && (h.tc ==> h.left == 0 && h.txdr.None?)
  }

  /** The bus has seen the opening condition and the bytes software took, and one more when RXNE is up. */
  ghost predicate ReceivingSegment(h: Hw, g: Segment, slave: Slave, taken: nat) {
    var arrived := if h.rxne then taken + 1 else taken;
    && h.phase == Receiving && h.txdr.None? && !h.txis
    && arrived <= g.n && h.left == g.n - arrived && h.heard == g.k + arrived
    && h.bus == g.before + [g.open] + Received(slave, g.k, arrived)
    && (h.rxne ==> h.rxdr == slave(g.k + taken))
    && (h.tc ==> h.left == 0)
  }

  /** The START of the segment is requested and not yet sent. */
  ghost predicate Requested(h: Hw, g: Segment) {
    && h.start && h.left == 0 && h.txdr.None? && !h.Flagged()
    && h.bus == g.before && h.heard == g.k && NBytes(h.cr2) == g.n
    && g.open == (if h.phase == Idle then Start(Sadd(h.cr2), ReadBit(h.cr2)) else Restart(Sadd(h.cr2), ReadBit(h.cr2)))
  }

  /** The controller is somewhere in segment g, software having moved `loaded` (written) or `taken` (read) bytes. */
  ghost predicate InSegment(h: Hw, g: Segment, slave: Slave, loaded: seq<byte>, taken: nat) {
    && !h.stop
    && (if h.start then Requested(h, g) && loaded == [] && taken == 0
        else if g.Reads() then ReceivingSegment(h, g, slave, taken)
        else SendingSegment(h, g, loaded) && !g.open.Stop? && !g.open.Tx? && !g.open.Rx?)
  }

  /** Whatever the controller does next, it stays in the segment and no raised flag falls. */
  lemma SegmentStable(h: Hw, e: HwEvent, g: Segment, slave: Slave, loaded: seq<byte>, taken: nat)
    requires InSegment(h, g, slave, loaded, taken) && Enabled(h, e)
    ensures var h' := Apply(h, e, slave);
            && InSegment(h', g, slave, loaded, taken)
            && (h.txis ==> h'.txis) && (h.rxne ==> h'.rxne) && (h.tc ==> h'.tc)
            && (h'.phase == Idle ==> h.phase == Idle)
  {
    var h' := Apply(h, e, slave);
    match e
    case Address =>
      assert Sent([]) == [] && Received(slave, g.k, 0) == [];
    case Request =>
    case Shift =>
      var last := |loaded| - 1;
      assert Sent(loaded) == Sent(loaded[..last]) + [Tx(loaded[last])];
    case Arrive =>
      assert Received(slave, g.k, taken + 1) == Received(slave, g.k, taken) + [Rx(slave(g.k + taken))];
    case Complete =>
    case Halt =>
  }

  lemma {:induction false} SegmentStays(h: Hw, events: seq<HwEvent>, g: Segment, slave: Slave, loaded: seq<byte>,
                                        taken: nat)
    requires InSegment(h, g, slave, loaded, taken)
    ensures var h' := Advanced(h, events, slave);
            && InSegment(h', g, slave, loaded, taken)
            && (h.txis ==> h'.txis) && (h.rxne ==> h'.rxne) && (h.tc ==> h'.tc)
            && (h'.phase == Idle ==> h.phase == Idle)
    decreases events
  {
    if events != [] {
      if Enabled(h, events[0]) {
        SegmentStable(h, events[0], g, slave, loaded, taken);
        SegmentStays(Apply(h, events[0], slave), events[1..], g, slave, loaded, taken);
      } else {
        SegmentStays(h, events[1..], g, slave, loaded, taken);
      }
    }
  }

  /** Writing TXDR when TXIS is up moves one more byte into the segment. */
  lemma LoadInSegment(h: Hw, g: Segment, slave: Slave, loaded: seq<byte>, b: byte)
    requires InSegment(h, g, slave, loaded, 0) && h.txis
    ensures InSegment(WriteTxdr(h, b), g, slave, loaded + [b], 0) && |loaded| < g.n
  {
  }

  /** Reading RXDR when RXNE is up takes the next byte of the device. */
  lemma TakeInSegment(h: Hw, g: Segment, slave: Slave, taken: nat)
    requires InSegment(h, g, slave, [], taken) && h.rxne
    ensures InSegment(ReadRxdr(h), g, slave, [], taken + 1) && h.rxdr == slave(g.k + taken) && taken < g.n
  {
  }

  /** TC with no unread byte: the bus shows the whole segment. */
  lemma SegmentComplete(h: Hw, g: Segment, slave: Slave, loaded: seq<byte>, taken: nat)
    requires InSegment(h, g, slave, loaded, taken) && h.tc && !h.rxne
    ensures !h.start && !h.stop && h.phase != Idle && h.left == 0 && !h.txis
    ensures g.Reads()
            ==> taken == g.n && h.heard == g.k + g.n && h.bus == g.before + [g.open] + Received(slave, g.k, g.n)
    ensures !g.Reads() ==> |loaded| == g.n && h.heard == g.k && h.bus == g.before + [g.open] + Sent(loaded)
  {
  }

  /** No transfer in progress: the bus is free, or only the STOP of the last transfer is outstanding. `bus` is the
      trace once that STOP is out. */
  ghost predicate Closing(h: Hw, bus: seq<Event>) {
    && !h.start && h.txdr.None? && !h.Flagged() && h.left == 0
    && (if h.phase == Idle then !h.stop && h.bus == bus else h.stop && h.bus + [Stop] == bus)
  }

  lemma {:induction false} ClosingStays(h: Hw, events: seq<HwEvent>, slave: Slave, bus: seq<Event>)
    requires Closing(h, bus)
    ensures var h' := Advanced(h, events, slave);
            && Closing(h', bus) && h'.heard == h.heard && (h.phase == Idle ==> h' == h)
    decreases events
  {
    if events != [] {
      var g := if Enabled(h, events[0]) then Apply(h, events[0], slave) else h;
      ClosingStays(g, events[1..], slave, bus);
    }
  }
}
