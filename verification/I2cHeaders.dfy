/** Headers pulled in the wrong place: what the engine makes of the queue when four bytes are missing from it. */
module I2cHeaders {
  import opened Words
  import opened Fifo
  import opened I2cBus
  import opened I2cEngine
  import opened I2cDecode
  import opened I2cCalls
  import opened I2cOverlap

  // What decoded events look like.

  predicate IsData(e: Event) { e.Tx? || e.Rx? }

  /** n data events, and then an opening condition or STOP. */
  predicate Counted(events: seq<Event>, n: nat) {
    n < |events| && !IsData(events[n]) && forall i :: 0 <= i < n ==> IsData(events[i])
  }

  lemma SameCount(a: seq<Event>, m: nat, n: nat)
    requires Counted(a, m) && Counted(a, n)
    ensures m == n
  {
  }

  lemma DecodedOpens(f: seq<byte>, mem: Memory, slave: Slave, k: nat)
    ensures Counted(Decoded(f, mem, slave, k).events, 0)
  {
    hide Pulled, Sadd, ReadBit, NBytes, StopBit, Segmented;
  }

  lemma {:induction false} SegmentedCounts(rd: bool, n: nat, f: seq<byte>, next: Option<word>, mem: Memory,
                                           slave: Slave, k: nat)
    ensures Counted(Segmented(rd, n, f, next, mem, slave, k).events, n)
    decreases n
  {
    hide Pulled, Sadd, ReadBit, NBytes, Decoded;
    if n == 0 {
      DecodedOpens(f, mem, slave, k);
    } else if rd {
      SegmentedCounts(rd, n - 1, Rest(f, 4), next, mem[Pulled(f) := slave(k)], slave, k + 1);
    } else {
      SegmentedCounts(rd, n - 1, Rest(f, 1), next, mem, slave, k);
    }
  }

  lemma {:induction false} SegmentedSends(n: nat, f: seq<byte>, next: Option<word>, mem: Memory, slave: Slave, k: nat)
    ensures Segmented(false, n, f, next, mem, slave, k)
         == Segmented(false, 0, Rest(f, n), next, mem, slave, k).Behind(Sent(Padded(f, n)))
    decreases n
  {
    hide Segmented, Padded, Sent, Rest, Head;
    if n == 0 {
      NothingPadded(f);
    } else {
      OneSend(n, f, next, mem, slave, k);
      PaddedHead(f, n);
      SegmentedSends(n - 1, Rest(f, 1), next, mem, slave, k);
      var e := Segmented(false, 0, Rest(f, n), next, mem, slave, k).events;
      assert [Tx(Head(f))] + (Sent(Padded(Rest(f, 1), n - 1)) + e)
          == [Tx(Head(f))] + Sent(Padded(Rest(f, 1), n - 1)) + e;
    }
  }

  lemma OneSend(n: nat, f: seq<byte>, next: Option<word>, mem: Memory, slave: Slave, k: nat)
    requires n > 0
    ensures Segmented(false, n, f, next, mem, slave, k)
         == Segmented(false, n - 1, Rest(f, 1), next, mem, slave, k).Behind([Tx(Head(f))])
  {
  }

  lemma NothingPadded(f: seq<byte>)
    ensures Sent(Padded(f, 0)) == [] && Rest(f, 0) == f
  {
  }

  lemma PaddedHead(f: seq<byte>, n: nat)
    requires n > 0
    ensures Sent(Padded(f, n)) == [Tx(Head(f))] + Sent(Padded(Rest(f, 1), n - 1))
    ensures Rest(Rest(f, 1), n - 1) == Rest(f, n)
  {
  }

  // Positions in a plan.

  /** The segment that follows p in its plan, as the bus will be when p is complete. */
  function Following(p: Pos, slave: Slave): Pos
    requires p.rest != []
  {
    var next := p.rest[0];
    Pos(Segment(p.g.before + [p.g.open] + p.cur.Data(slave, p.g.k), Open(false, next.dev, next.Recv?), next.Units(),
                p.g.k + p.cur.Heard()),
        next, p.rest[1..], 0)
  }

  /** Software has moved all bytes of the segment on the bus, and the queue goes on with the next header. */
  predicate AtSegmentEnd(p: Pos) { p.moved == p.cur.Units() && p.rest != [] }

  lemma FollowingFramed(fifo: seq<byte>, p: Pos, slave: Slave)
    requires Framed(fifo, p) && Placed(p) && AtSegmentEnd(p)
    ensures Pulled(fifo) == p.rest[0].Header() && Framed(Rest(fifo, 4), Following(p, slave))
    ensures Placed(Following(p, slave)) && IsHeader(p.rest[0].Header(), p.rest[0])
  {
    hide Assembled, Queued, Cr2;
    assert fifo == Stream(p.rest);
    PulledHeader(p.rest[0].Header(), p.rest[0].Payload(), Stream(p.rest[1..]));
    HeaderIsHeader(p.rest[0]);
  }

  lemma StartedUnmoved(h: Hw, q: Pos, slave: Slave)
    requires Placed(q) && OnBus(h, q, slave) && h.start
    ensures q.moved == 0
  {
    if q.cur.Send? {
      assert |q.cur.bytes[..q.moved]| == q.moved;
    }
  }

  lemma NotStarting(h: Hw, p: Pos, slave: Slave)
    requires Placed(p) && OnBus(h, p, slave) && p.moved > 0
    ensures !h.start
  {
    if h.start {
      StartedUnmoved(h, p, slave);
    }
  }

  lemma SomeUnits(p: Pos, spot: Spot)
    requires At(p, spot)
    ensures p.cur.Units() > 0 && (p.cur.Send? ==> |p.cur.bytes| > 0)
  {
  }

  lemma AimsBus(mem: Memory, p: Pos, slave: Slave, goal: Goal)
    requires Aims(mem, p, slave, goal)
    ensures goal.bus == p.g.before + [p.g.open] + p.cur.Data(slave, p.g.k)
                        + Trace(p.rest, slave, p.g.k + p.cur.Heard(), false) + [Stop]
  {
  }

  lemma NoTrace(slave: Slave, k: nat)
    ensures Trace([], slave, k, false) == []
  {
  }

  // A header that has been swallowed: the four bytes behind it are taken for a header. The bus is wrong in the end, but
  // for a read that nothing follows and whose pointer is a header itself.

  /** Header w is one for segment `seg`, whatever its other bits. */
  predicate Addresses(w: word, seg: Seg) {
    Sadd(w) == seg.dev && ReadBit(w) == seg.Recv? && NBytes(w) == seg.Units() && !StopBit(w)
  }

  lemma TwoPulled(r: byte, v: byte)
    ensures var w := Pulled([r, v]); Sadd(w) == v % 4 * 0x100 + v && NBytes(w) == v && Rest([r, v], 4) == []
  {
    assert [r, v][1..] == [v] && [v][1..] == [];
    assert Weight(3) == 0x100_0000 && Weight(2) == 0x1_0000 && Weight(1) == 0x100;
    assert Assembled([], 1, v) == v;
    assert Assembled([], 2, v) == v as int * 0x100 + v;
    assert Assembled([v], 3, r) == v as int * 0x1_0000 + v as int * 0x100 + v;
    hide Pulled, Sadd, NBytes;
    WordFields(r, v, v, v);
  }

  /** A queue f, taken as a header and its payload, brings the events of `seg` and then `more`. */
  ghost predicate Serves(f: seq<byte>, seg: Seg, more: seq<Event>, mem: Memory, slave: Slave, k: nat) {
    var w := Pulled(f);
    && !StopBit(w) && Sadd(w) == seg.dev && ReadBit(w) == seg.Recv?
    && Segmented(ReadBit(w), NBytes(w), Rest(f, 4), None, mem, slave, k).events == seg.Data(slave, k) + more
  }

  lemma ServesCount(f: seq<byte>, seg: Seg, more: seq<Event>, mem: Memory, slave: Slave, k: nat)
    requires Serves(f, seg, more, mem, slave, k) && Counted(more, 0)
    ensures NBytes(Pulled(f)) == seg.Units()
  {
    hide Pulled, Sadd, ReadBit, NBytes, StopBit, Segmented;
    var w := Pulled(f);
    var e := Segmented(ReadBit(w), NBytes(w), Rest(f, 4), None, mem, slave, k).events;
    SegmentedCounts(ReadBit(w), NBytes(w), Rest(f, 4), None, mem, slave, k);
    DataIsData(seg, slave, k);
    assert Counted(e, seg.Units());
    SameCount(e, NBytes(w), seg.Units());
  }

  lemma DataIsData(seg: Seg, slave: Slave, k: nat)
    ensures var d := seg.Data(slave, k); |d| == seg.Units() && forall i :: 0 <= i < |d| ==> IsData(d[i])
  {
  }

  lemma TraceOpens(segs: seq<Seg>, slave: Slave, k: nat)
    ensures Counted(Trace(segs, slave, k, false) + [Stop], 0)
  {
  }

  /** A write whose header has been swallowed. */
  lemma {:induction false} SwallowedWrite(dev: byte, r: byte, v: byte, zs: seq<Xfer>, mem: Memory, slave: Slave, k: nat)
    ensures !Serves([r, v] + Frames(zs), Send(dev, [r, v]), Trace(Plan(zs), slave, k, false) + [Stop], mem, slave, k)
    decreases |zs|, 1
  {
    hide Frames, Plan, Trace, Decoded, Segmented, Pulled, Sadd, ReadBit, NBytes, StopBit;
    var f, more := [r, v] + Frames(zs), Trace(Plan(zs), slave, k, false) + [Stop];
    if Serves(f, Send(dev, [r, v]), more, mem, slave, k) {
      TraceOpens(Plan(zs), slave, k);
      ServesCount(f, Send(dev, [r, v]), more, mem, slave, k);
      if zs == [] {
        NoFrames();
        assert f == [r, v];
        TwoPulled(r, v);
      } else {
        var g := Frames(zs);
        SwallowedBytes(r, v, zs);
        SegmentedSends(2, g[2..], None, mem, slave, k);
        Undelayed(Rest(g, 4), mem, slave, k);
        SameRest(Sent(Padded(g[2..], 2)), Decoded(Rest(g, 4), mem, slave, k).events, Sent([r, v]), more);
        SwallowedFrames(zs, mem, slave, k);
      }
    }
  }

  lemma SameRest<T>(a: seq<T>, b: seq<T>, c: seq<T>, d: seq<T>)
    requires a + b == c + d && |a| == |c|
    ensures a == c && b == d
  {
    assert a == (a + b)[..|a|] == c && b == (a + b)[|a|..] == d;
  }

  lemma Headed<T>(a: T, b: seq<T>, c: T, d: seq<T>)
    ensures [a] + b == [c] + d <==> a == c && b == d
  {
    if [a] + b == [c] + d {
      SameRest([a], b, [c], d);
    }
  }

  lemma Undelayed(f: seq<byte>, mem: Memory, slave: Slave, k: nat)
    ensures Segmented(false, 0, f, None, mem, slave, k) == Decoded(f, mem, slave, k)
  {
  }

  lemma SwallowedBytes(r: byte, v: byte, zs: seq<Xfer>)
    requires zs != []
    ensures var f, g := [r, v] + Frames(zs), Frames(zs);
            && |g| >= 6 && Rest(f, 4) == g[2..] && Rest(g[2..], 2) == Rest(g, 4)
            && Pulled(f) == r as int * 0x100_0000 + v as int * 0x1_0000 + (if zs[0].WriteReg? then 2 else 1)
  {
    FrameBytes(zs);
    hide Frames;
    FourBytes([r, v] + Frames(zs));
  }

  /** With the first header of whole frames swallowed the bus is wrong. */
  lemma {:induction false} SwallowedFrames(zs: seq<Xfer>, mem: Memory, slave: Slave, k: nat)
    requires zs != []
    ensures Decoded(Rest(Frames(zs), 4), mem, slave, k).events != Trace(Plan(zs), slave, k, false) + [Stop]
    decreases |zs|, 0
  {
    hide Frames, Plan, Trace, Decoded, Pulled, Serves;
    var z, more := zs[0], zs[1..];
    var f, tail := Rest(Frames(zs), 4), Trace(Plan(more), slave, k + Reads(z), false) + [Stop];
    FrameBytes(zs);
    FirstOfTrace(zs, slave, k);
    if z.WriteReg? {
      assert f == [z.reg, z.value] + Frames(more);
      SwallowedWrite(z.dev, z.reg, z.value, more, mem, slave, k);
      DecodedServes(f, Send(z.dev, [z.reg, z.value]), tail, mem, slave, k);
    } else {
      var read := [Restart(z.dev, true), Rx(slave(k))] + tail;
      SwallowedHalf(f, z.dev, z.reg, read, mem, slave, k);
      DecodedServes(f, Send(z.dev, [z.reg]), read, mem, slave, k);
    }
  }

  lemma FirstOfTrace(zs: seq<Xfer>, slave: Slave, k: nat)
    requires zs != []
    ensures var z := zs[0];
            var tail := Trace(Plan(zs[1..]), slave, k + Reads(z), false) + [Stop];
            Trace(Plan(zs), slave, k, false) + [Stop]
            == [Restart(z.dev, false)]
               + (if z.WriteReg? then Sent([z.reg, z.value]) + tail
                  else Sent([z.reg]) + ([Restart(z.dev, true), Rx(slave(k))] + tail))
  {
    hide Trace;
    FormatIsTrace(zs[0], Plan(zs[1..]), slave, k, false);
    if zs[0].WriteReg? {
      SentTwo(zs[0].reg, zs[0].value);
    } else {
      SentOne(zs[0].reg);
    }
  }

  /** A queue brings a segment and `more` from TC on if its first four bytes are taken for the header. */
  lemma DecodedServes(f: seq<byte>, seg: Seg, more: seq<Event>, mem: Memory, slave: Slave, k: nat)
    requires f != []
    ensures Decoded(f, mem, slave, k).events == [Restart(seg.dev, seg.Recv?)] + (seg.Data(slave, k) + more)
            <==> Serves(f, seg, more, mem, slave, k)
  {
    hide Pulled, Sadd, ReadBit, NBytes, StopBit, Segmented;
    var w := Pulled(f);
    var e := Segmented(ReadBit(w), NBytes(w), Rest(f, 4), None, mem, slave, k).events;
    var data := seg.Data(slave, k) + more;
    if !StopBit(w) {
      assert Decoded(f, mem, slave, k).events == [Restart(Sadd(w), ReadBit(w))] + e;
      Headed(Restart(Sadd(w), ReadBit(w)), e, Restart(seg.dev, seg.Recv?), data);
    } else {
      assert Decoded(f, mem, slave, k).events[0] == Stop;
    }
  }

  /** The register half of a read whose header has been swallowed. */
  lemma SwallowedHalf(f: seq<byte>, dev: byte, reg: byte, more: seq<Event>, mem: Memory, slave: Slave, k: nat)
    requires |f| >= 4 && f[2] == 1 && f[3] == 4
    ensures !Serves(f, Send(dev, [reg]), more, mem, slave, k)
  {
    hide Pulled, Segmented, Sadd, NBytes, ReadBit, StartBit, StopBit;
    PulledFields(f);
  }

  /** A swallowed header in general: `p` is the segment it belongs to. */
  lemma SwallowedIff(p: Pos, spot: Spot, mem: Memory, slave: Slave, k: nat)
    requires At(p, spot) && Plain(spot)
    ensures var f := p.cur.Payload() + Stream(p.rest);
            Serves(f, p.cur, Trace(p.rest, slave, k + p.cur.Heard(), false) + [Stop], mem, slave, k)
            <==> p.cur.Recv? && p.rest == [] && Addresses(Pulled(f), p.cur)
  {
    hide Frames, Plan, Trace, Serves, Pulled, Queued, Cr2, Addresses;
    PlanStream(spot.zs);
    assert Plan(spot.zs) + [] == Plan(spot.zs);
    match spot.part
    case Whole =>
      var r, v := p.cur.bytes[0], p.cur.bytes[1];
      assert p.cur.bytes == [r, v] && p.cur == Send(p.cur.dev, [r, v]);
      SwallowedWrite(p.cur.dev, r, v, spot.zs, mem, slave, k);
    case Half(ptr) =>
      var reg, f := p.cur.bytes[0], p.cur.Payload() + Stream(p.rest);
      assert p.cur.bytes == [reg] && p.cur == Send(p.cur.dev, [reg]);
      HeaderBytes(1, true, p.cur.dev);
      assert f[..5] == [reg] + Queued(Cr2(1, true, p.cur.dev));
      assert f[..5][2] == 1 && f[..5][3] == 4;
      SwallowedHalf(f, p.cur.dev, reg, Trace(p.rest, slave, k, false) + [Stop], mem, slave, k);
    case Tail =>
      NoPlan(mem, slave, k);
      SwallowedRead(p.cur, spot.zs, mem, slave, k);
  }

  lemma SwallowedRead(seg: Seg, zs: seq<Xfer>, mem: Memory, slave: Slave, k: nat)
    requires seg.Recv?
    ensures var f := Queued(seg.ptr) + Frames(zs);
            Serves(f, seg, Trace(Plan(zs), slave, k + 1, false) + [Stop], mem, slave, k)
            <==> zs == [] && Addresses(Pulled(f), seg)
  {
    hide Frames, Queued, Cr2, Assembled, Sadd, ReadBit, NBytes, StopBit, Plan, Trace, Decoded;
    var w, more := seg.ptr, Trace(Plan(zs), slave, k + 1, false) + [Stop];
    var f := Queued(w) + Frames(zs);
    PulledWord(w, Frames(zs));
    TraceOpens(Plan(zs), slave, k + 1);
    if Serves(f, seg, more, mem, slave, k) {
      ServesCount(f, seg, more, mem, slave, k);
    }
    if ReadBit(w) && NBytes(w) == 1 {
      var m := mem[Pulled(Frames(zs)) := slave(k)];
      var d := Decoded(Rest(Frames(zs), 4), m, slave, k + 1).events;
      assert Segmented(true, 1, Frames(zs), None, mem, slave, k).events == [Rx(slave(k))] + d;
      Headed(Rx(slave(k)), d, Rx(slave(k)), more);
      if zs == [] {
        NoFrames();
        NoPlan(m, slave, k + 1);
      } else {
        SwallowedFrames(zs, m, slave, k + 1);
      }
    }
  }

  lemma NoPlan(mem: Memory, slave: Slave, k: nat)
    ensures Plan([]) == [] && Trace([], slave, k, false) + [Stop] == [Stop] == Decoded([], mem, slave, k).events
  {
  }

  // A header pulled while the segment on the bus still needs bytes.

  /** A segment and the rest of the plan, behind any header that addresses the segment. */
  lemma AddressedServes(w: word, seg: Seg, segs: seq<Seg>, mem: Memory, slave: Slave, k: nat)
    requires Addresses(w, seg) && AllWf(segs)
    ensures var j := k + seg.Heard();
            Segmented(ReadBit(w), NBytes(w), seg.Payload() + Stream(segs), None, mem, slave, k)
            == Effect(seg.Data(slave, k) + (Trace(segs, slave, j, false) + [Stop]),
                      Stores(seg.Store(mem, slave, k), segs, slave, j), j + HeardBy(segs))
  {
    hide Sadd, ReadBit, NBytes, StopBit, Trace, Stores, HeardBy, Decoded, Stream;
    SegDecodes(seg, Stream(segs), None, mem, slave, k);
    StreamDecodes(segs, seg.Store(mem, slave, k), slave, k + seg.Heard());
    assert Segmented(seg.Recv?, 0, Stream(segs), None, seg.Store(mem, slave, k), slave, k + seg.Heard())
        == Decoded(Stream(segs), seg.Store(mem, slave, k), slave, k + seg.Heard());
  }

  /** The bytes that segment p still needs. */
  function Needed(p: Pos): seq<byte> {
    if p.cur.Send? && p.moved <= |p.cur.bytes| then p.cur.bytes[p.moved..] else []
  }

  /** Where the engine goes when, inside a sending segment p, the first four bytes of the queue have become CR2 and
      START is requested. */
  function Echoed(p: Pos, fifo: seq<byte>, mem: Memory, slave: Slave): Goal
    requires Placed(p) && p.cur.Send?
  {
    Reached(p.g, p.cur.bytes[..p.moved], 0, Rest(fifo, 4), Some(Pulled(fifo)), mem, slave)
  }

  /** That is right exactly if the four bytes address the next segment and the bytes behind them repeat the ones that
      the segment still needs. */
  lemma EchoIff(p: Pos, fifo: seq<byte>, mem: Memory, slave: Slave, full: Goal)
    requires Placed(p) && p.cur.Send? && !p.g.Reads() && p.rest != []
    requires Framed(fifo, p) && Aims(mem, p, slave, full)
    requires !StopBit(Pulled(fifo))
    ensures Echoed(p, fifo, mem, slave).bus == full.bus
            <==> Addresses(Pulled(fifo), p.rest[0]) && Needed(p) <= Rest(fifo, 4)
    ensures Echoed(p, fifo, mem, slave).bus == full.bus ==> Echoed(p, fifo, mem, slave) == full
  {
    hide Pulled, Sadd, ReadBit, NBytes, StopBit, Segmented, Trace, Stream, Reached, Framed, Aims, Stores, HeardBy;
    hide Padded, Sent, Needed, Echoed;
    var w, f, d, next, n := Pulled(fifo), Rest(fifo, 4), Needed(p), p.rest[0], |Needed(p)|;
    var k := p.g.k;
    var s2 := Segmented(ReadBit(w), NBytes(w), Rest(f, n), None, mem, slave, k);
    var t2 := next.Data(slave, k) + (Trace(p.rest[1..], slave, k + next.Heard(), false) + [Stop]);
    EchoedShows(p, fifo, mem, slave);
    IntendedShows(p, mem, slave, full);
    var shown := p.g.before + [p.g.open] + Sent(p.cur.bytes[..p.moved]);
    SameTail(shown, Sent(Padded(f, n)), Restart(Sadd(w), ReadBit(w)), s2.events,
             Sent(d), Restart(next.dev, next.Recv?), t2);
    LongEnough(p, fifo);
    SamePadded(f, d);
    if Sadd(w) == next.dev && ReadBit(w) == next.Recv? && s2.events == t2 {
      TraceOpens(p.rest[1..], slave, k + next.Heard());
      SegmentedCounts(ReadBit(w), NBytes(w), Rest(f, n), None, mem, slave, k);
      DataIsData(next, slave, k);
      SameCount(t2, NBytes(w), next.Units());
    }
    if Addresses(w, next) && d <= f {
      EchoLeaves(p, fifo);
      AddressedServes(w, next, p.rest[1..], mem, slave, k);
    }
  }

  lemma SameTail<T>(shown: seq<T>, a: seq<T>, x: T, b: seq<T>, c: seq<T>, y: T, d: seq<T>)
    requires |a| == |c|
    ensures shown + (a + ([x] + b)) == shown + (c + ([y] + d)) <==> a == c && x == y && b == d
  {
    Headed(x, b, y, d);
    if shown + (a + ([x] + b)) == shown + (c + ([y] + d)) {
      SameRest(shown, a + ([x] + b), shown, c + ([y] + d));
      SameRest(a, [x] + b, c, [y] + d);
    }
  }

  lemma EchoedShows(p: Pos, fifo: seq<byte>, mem: Memory, slave: Slave)
    requires Placed(p) && p.cur.Send? && !p.g.Reads()
    ensures var w, f, n := Pulled(fifo), Rest(fifo, 4), |Needed(p)|;
            var s2 := Segmented(ReadBit(w), NBytes(w), Rest(f, n), None, mem, slave, p.g.k);
            Echoed(p, fifo, mem, slave)
            == Goal(p.g.before + [p.g.open] + Sent(p.cur.bytes[..p.moved])
                    + (Sent(Padded(f, n)) + ([Restart(Sadd(w), ReadBit(w))] + s2.events)), s2.mem, s2.heard)
  {
    hide Pulled, Sadd, ReadBit, NBytes, Decoded;
    var w, f, n := Pulled(fifo), Rest(fifo, 4), |Needed(p)|;
    SegmentedSends(n, f, Some(w), mem, slave, p.g.k);
  }

  lemma IntendedShows(p: Pos, mem: Memory, slave: Slave, full: Goal)
    requires Placed(p) && p.cur.Send? && p.rest != [] && Aims(mem, p, slave, full)
    ensures var next, k := p.rest[0], p.g.k;
            var t2 := next.Data(slave, k) + (Trace(p.rest[1..], slave, k + next.Heard(), false) + [Stop]);
            full == Goal(p.g.before + [p.g.open] + Sent(p.cur.bytes[..p.moved])
                         + (Sent(Needed(p)) + ([Restart(next.dev, next.Recv?)] + t2)),
                         Stores(next.Store(mem, slave, k), p.rest[1..], slave, k + next.Heard()),
                         k + next.Heard() + HeardBy(p.rest[1..]))
  {
    hide Stores, HeardBy, Stream, Trace;
    var next, k := p.rest[0], p.g.k;
    var tail := Trace(p.rest[1..], slave, k + next.Heard(), false);
    assert Sent(p.cur.bytes) == Sent(p.cur.bytes[..p.moved]) + Sent(Needed(p));
    assert p.rest == [next] + p.rest[1..];
    TraceCons(next, p.rest[1..], slave, k, false);
    OneStore(p.rest, mem, slave, k);
    hide Sent, Needed;
    var a, b, c := p.g.before + [p.g.open], Sent(p.cur.bytes[..p.moved]), Sent(Needed(p));
    Joins(a, b, c, [Restart(next.dev, next.Recv?)], next.Data(slave, k), tail, [Stop]);
  }

  lemma Joins<T>(a: seq<T>, b: seq<T>, c: seq<T>, d: seq<T>, e: seq<T>, f: seq<T>, g: seq<T>)
    ensures a + (b + c) + (d + e + f) + g == a + b + (c + (d + (e + (f + g))))
  {
  }

  lemma OneStore(segs: seq<Seg>, mem: Memory, slave: Slave, k: nat)
    requires segs != []
    ensures Stores(mem, segs, slave, k) == Stores(segs[0].Store(mem, slave, k), segs[1..], slave, k + segs[0].Heard())
    ensures HeardBy(segs) == segs[0].Heard() + HeardBy(segs[1..])
  {
  }

  lemma LongEnough(p: Pos, fifo: seq<byte>)
    requires Framed(fifo, p) && p.cur.Send? && p.rest != [] && p.moved <= p.cur.Units()
    ensures fifo == Needed(p) + Stream(p.rest) && |fifo| >= |Needed(p)| + 4
  {
    hide Queued, Cr2;
  }

  lemma SamePadded(f: seq<byte>, d: seq<byte>)
    requires |f| >= |d|
    ensures Sent(Padded(f, |d|)) == Sent(d) <==> d <= f
  {
    if Sent(Padded(f, |d|)) == Sent(d) {
      forall i | 0 <= i < |d|
        ensures d[i] == f[i]
      {
        assert Sent(Padded(f, |d|))[i] == Sent(d)[i];
      }
    }
    if d <= f {
      assert Padded(f, |d|) == d;
    }
  }

  /** After an echo the queue goes on with the payload of the next segment. */
  lemma EchoLeaves(p: Pos, fifo: seq<byte>)
    requires Framed(fifo, p) && Placed(p) && p.cur.Send? && p.rest != [] && Needed(p) <= Rest(fifo, 4)
    ensures Rest(Rest(fifo, 4), |Needed(p)|) == p.rest[0].Payload() + Stream(p.rest[1..])
  {
    hide Queued, Cr2;
    LongEnough(p, fifo);
    var h := Queued(p.rest[0].Header());
    assert Stream(p.rest) == h + (p.rest[0].Payload() + Stream(p.rest[1..]));
    assert fifo[4 + |Needed(p)|..] == Stream(p.rest)[4..];
  }
}
