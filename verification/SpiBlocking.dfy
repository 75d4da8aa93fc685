/** quasar_spi_transfer_full_duplex_blocking against a TX FIFO, a shifter and an RX FIFO.

    `depth` is the TX FIFO with the shifter folded in. `slave(sent)` is the reply clocked in while the last byte of
    `sent` is clocked out. `patience` is an arbitrary finite number of polls during which the peripheral may do nothing
    or report TXP late; after that it moves, so every transfer ends. */
module SpiBlocking {
  import opened Words

  datatype State = Ready | BusyTxRx

  function Replies(slave: seq<byte> -> byte, before: seq<byte>, sent: seq<byte>): (r: seq<byte>)
    ensures |r| == |sent|
  {
    seq(|sent|, i requires 0 <= i < |sent| => slave(before + sent[..i + 1]))
  }

  lemma RepliesGrow(slave: seq<byte> -> byte, before: seq<byte>, sent: seq<byte>, b: byte)
    ensures Replies(slave, before, sent + [b]) == Replies(slave, before, sent) + [slave(before + sent + [b])]
  {
    var grown := sent + [b];
    forall i | 0 <= i < |sent|
      ensures Replies(slave, before, grown)[i] == Replies(slave, before, sent)[i]
    {
      assert grown[..i + 1] == sent[..i + 1];
    }
    assert grown[..|sent| + 1] == grown;
    assert before + grown == before + sent + [b];
  }

  /** The reply to a byte does not depend on what is sent after it. */
  lemma RepliesPrefix(slave: seq<byte> -> byte, before: seq<byte>, sent: seq<byte>, n: nat)
    requires n <= |sent|
    ensures Replies(slave, before, sent)[..n] == Replies(slave, before, sent[..n])
  {
    forall i | 0 <= i < n
      ensures Replies(slave, before, sent)[i] == Replies(slave, before, sent[..n])[i]
    {
      assert sent[..n][..i + 1] == sent[..i + 1];
    }
  }

  /** The peripheral has clocked out a prefix of `sent` after `before`, holds the rest, and holds the replies that
      software has not read. */
  ghost predicate Flow(slave: seq<byte> -> byte, before: seq<byte>, sent: seq<byte>, read: nat,
                       mosi: seq<byte>, txq: seq<byte>, rxq: seq<byte>)
  {
    && |before| <= |mosi| <= |before| + |sent|
    && var clocked := |mosi| - |before|;
       && read <= clocked
       && mosi == before + sent[..clocked] && txq == sent[clocked..]
       && rxq == Replies(slave, before, sent[..clocked])[read..]
  }

  lemma FlowStart(slave: seq<byte> -> byte, before: seq<byte>)
    ensures Flow(slave, before, [], 0, before, [], [])
  {
  }

  lemma FlowSizes(slave: seq<byte> -> byte, before: seq<byte>, sent: seq<byte>, read: nat,
                  mosi: seq<byte>, txq: seq<byte>, rxq: seq<byte>)
    requires Flow(slave, before, sent, read, mosi, txq, rxq)
    ensures |txq| + |rxq| == |sent| - read
    ensures read == |sent| ==> mosi == before + sent
  {
  }

  lemma FlowExchange(slave: seq<byte> -> byte, before: seq<byte>, sent: seq<byte>, read: nat,
                     mosi: seq<byte>, txq: seq<byte>, rxq: seq<byte>)
    requires Flow(slave, before, sent, read, mosi, txq, rxq) && txq != []
    ensures var m := mosi + [txq[0]];
            Flow(slave, before, sent, read, m, txq[1..], rxq + [slave(m)])
  {
    var clocked := |mosi| - |before|;
    assert sent[..clocked + 1] == sent[..clocked] + [sent[clocked]];
    RepliesGrow(slave, before, sent[..clocked], sent[clocked]);
  }

  lemma FlowPush(slave: seq<byte> -> byte, before: seq<byte>, sent: seq<byte>, read: nat,
                 mosi: seq<byte>, txq: seq<byte>, rxq: seq<byte>, b: byte)
    requires Flow(slave, before, sent, read, mosi, txq, rxq)
    ensures Flow(slave, before, sent + [b], read, mosi, txq + [b], rxq)
  {
    var clocked := |mosi| - |before|;
    assert (sent + [b])[..clocked] == sent[..clocked];
  }

  lemma FlowRead(slave: seq<byte> -> byte, before: seq<byte>, sent: seq<byte>, read: nat,
                 mosi: seq<byte>, txq: seq<byte>, rxq: seq<byte>)
    requires Flow(slave, before, sent, read, mosi, txq, rxq) && rxq != []
    ensures Flow(slave, before, sent, read + 1, mosi, txq, rxq[1..])
    ensures read < |sent| && rxq[0] == Replies(slave, before, sent)[read]
  {
    var clocked := |mosi| - |before|;
    RepliesPrefix(slave, before, sent, clocked);
  }

  class Spi {
    const depth: nat
    const rxDepth: nat
    const slave: seq<byte> -> byte
    var state: State
    var enabled: bool
    var txq: seq<byte>
    var rxq: seq<byte>
    var overrun: bool
    var patience: nat
    /** TSIZE, where in `mosi` the transfer began, and the end-of-transfer flag. */
    var tsize: nat
    var startAt: nat
    var eot: bool
    /** Bytes clocked out so far, in order. */
    var mosi: seq<byte>
    /** The most bytes pushed and not yet read, at loop heads and anywhere. */
    ghost var headPeak: nat
    ghost var peak: nat

    constructor (depth: nat, rxDepth: nat, slave: seq<byte> -> byte, patience: nat)
      ensures this.depth == depth && this.rxDepth == rxDepth && this.slave == slave && this.patience == patience
      ensures state == Ready && txq == [] && rxq == [] && !overrun && mosi == [] && headPeak == peak == 0
    {
      this.depth, this.rxDepth, this.slave, this.patience := depth, rxDepth, slave, patience;
      state, enabled, txq, rxq, overrun := Ready, false, [], [], false;
      mosi, headPeak, peak, tsize, startAt, eot := [], 0, 0, 0, 0, false;
    }

    /** One byte out, one reply in; a reply that finds the RX FIFO full is lost. */
    method Exchange()
      requires txq != []
      modifies this`txq, this`rxq, this`overrun, this`mosi
      ensures txq == old(txq)[1..] && mosi == old(mosi) + [old(txq)[0]]
      ensures if old(|rxq|) < rxDepth then rxq == old(rxq) + [slave(mosi)] && overrun == old(overrun)
              else rxq == old(rxq) && overrun
    {
      mosi := mosi + [txq[0]];
      if |rxq| < rxDepth {
        rxq := rxq + [slave(mosi)];
      } else {
        overrun := true;
      }
      txq := txq[1..];
    }

    /** The clock runs between two register accesses. With no patience left it moves at least one waiting byte. */
    method Clock(ghost before: seq<byte>, ghost sent: seq<byte>, ghost read: nat)
      requires Flow(slave, before, sent, read, mosi, txq, rxq) && !overrun && |txq| + |rxq| <= rxDepth
      modifies this`txq, this`rxq, this`overrun, this`mosi, this`patience
      ensures Flow(slave, before, sent, read, mosi, txq, rxq) && !overrun
      ensures |txq| + |rxq| == old(|txq| + |rxq|) && |txq| <= old(|txq|)
      ensures patience == if old(patience) > 0 then old(patience) - 1 else 0
      ensures old(patience) == 0 && old(txq) != [] ==> |txq| < old(|txq|)
    {
      hide Flow;
      var n: nat := *;
      if patience == 0 && n <= 0 {
        n := 1;
      }
      while n > 0 && txq != []
        invariant Flow(slave, before, sent, read, mosi, txq, rxq) && !overrun
        invariant |txq| + |rxq| == old(|txq| + |rxq|) && |txq| <= old(|txq|)
        invariant patience == old(patience)
        invariant patience == 0 ==> n > 0 || |txq| < old(|txq|)
        decreases |txq|
      {
        FlowExchange(slave, before, sent, read, mosi, txq, rxq);
        Exchange();
        n := n - 1;
      }
      if patience > 0 {
        patience := patience - 1;
      }
    }

    /** First half of the loop body: if TXP is seen, the next byte goes to TXDR. TXP is never reported without room. */
    method SendHalf(more: bool, b: byte, ghost before: seq<byte>, ghost sent: seq<byte>, ghost read: nat)
      returns (pushed: bool)
      requires Flow(slave, before, sent, read, mosi, txq, rxq) && !overrun && |sent| - read <= depth < rxDepth
      modifies this`txq, this`rxq, this`overrun, this`mosi, this`patience
      ensures Flow(slave, before, if pushed then sent + [b] else sent, read, mosi, txq, rxq) && !overrun
      ensures pushed ==> more
      ensures |txq| <= old(|txq|) + if pushed then 1 else 0
      ensures pushed ==> |txq| <= depth
      ensures patience == if old(patience) > 0 then old(patience) - 1 else 0
      ensures old(patience) == 0 && !pushed ==> old(|txq|) == 0 || |txq| < old(|txq|)
      ensures old(patience) == 0 && more && old(|txq|) < depth ==> pushed
    {
      hide Flow;
      FlowSizes(slave, before, sent, read, mosi, txq, rxq);
      Clock(before, sent, read);
      var late: bool := *;
      var txp := |txq| < depth && !(late && patience > 0);
      pushed := txp && more;
      if pushed {
        FlowPush(slave, before, sent, read, mosi, txq, rxq, b);
        txq := txq + [b];
      }
    }

    /** Second half of the loop body: if the RX FIFO holds a byte, it is read. */
    method ReceiveHalf(more: bool, ghost before: seq<byte>, ghost sent: seq<byte>, ghost read: nat)
      returns (got: bool, b: byte)
      requires Flow(slave, before, sent, read, mosi, txq, rxq) && !overrun && |sent| - read <= depth + 1 <= rxDepth
      modifies this`txq, this`rxq, this`overrun, this`mosi, this`patience
      ensures Flow(slave, before, sent, if got then read + 1 else read, mosi, txq, rxq) && !overrun
      ensures got ==> more && read < |sent| && b == Replies(slave, before, sent)[read]
      ensures |txq| <= old(|txq|) && patience <= old(patience)
      ensures !got && more ==> rxq == []
    {
      hide Flow;
      FlowSizes(slave, before, sent, read, mosi, txq, rxq);
      Clock(before, sent, read);
      got, b := false, 0;
      if rxq != [] && more {
        FlowRead(slave, before, sent, read, mosi, txq, rxq);
        b := rxq[0];
        rxq := rxq[1..];
        got := true;
      }
    }

    /** One round of the loop. Every round moves a byte or uses up patience. */
    method Round(tx: byte, txSize: nat, rxSize: nat, ghost before: seq<byte>, ghost sent: seq<byte>, ghost read: nat)
      returns (pushed: bool, got: bool, b: byte)
      requires Flow(slave, before, sent, read, mosi, txq, rxq) && !overrun
      requires |sent| - read <= depth < rxDepth && 0 < depth && rxSize == |sent| - read + txSize
      modifies this`txq, this`rxq, this`overrun, this`mosi, this`patience, this`headPeak, this`peak
      ensures var s := if pushed then sent + [tx] else sent;
              && Flow(slave, before, s, if got then read + 1 else read, mosi, txq, rxq) && !overrun
              && (got ==> read < |s| && b == Replies(slave, before, s)[read])
              && |s| - (if got then read + 1 else read) <= depth
      ensures (pushed ==> txSize > 0) && (got ==> rxSize > 0)
      ensures old(headPeak) <= depth ==> headPeak <= depth
      ensures old(peak) <= depth + 1 ==> peak <= depth + 1
      ensures var was, now := 2 * txSize + old(|txq|) + rxSize,
                              2 * (txSize - if pushed then 1 else 0) + |txq| + rxSize - if got then 1 else 0;
              now <= was && patience <= old(patience)
              && (txSize > 0 || rxSize > 0 ==> now < was || patience < old(patience))
    {
      hide Flow, Replies;
      FlowSizes(slave, before, sent, read, mosi, txq, rxq);
      headPeak := if headPeak < |txq| + |rxq| then |txq| + |rxq| else headPeak;
      pushed := SendHalf(txSize > 0, tx, before, sent, read);
      ghost var s := if pushed then sent + [tx] else sent;
      FlowSizes(slave, before, s, read, mosi, txq, rxq);
      peak := if peak < |txq| + |rxq| then |txq| + |rxq| else peak;
      got, b := ReceiveHalf(rxSize > 0, before, s, read);
      FlowSizes(slave, before, s, if got then read + 1 else read, mosi, txq, rxq);
    }

    /** The transfer loop. */
    method TransferLoop(txData: array<byte>, rxData: array<byte>, size: nat, ghost before: seq<byte>,
                        ghost out: seq<byte>)
      requires size <= txData.Length && size <= rxData.Length && out == txData[..size]
      requires 0 < depth < rxDepth && !overrun && headPeak <= depth && peak <= depth + 1
      requires Flow(slave, before, [], 0, mosi, txq, rxq)
      modifies this`txq, this`rxq, this`overrun, this`mosi, this`patience, this`headPeak, this`peak, rxData
      ensures Flow(slave, before, out, size, mosi, txq, rxq) && !overrun && headPeak <= depth && peak <= depth + 1
      ensures forall k :: 0 <= k < size ==> rxData[k] == Replies(slave, before, out)[k]
      ensures forall k :: size <= k < rxData.Length ==> rxData[k] == old(rxData[k])
    {
      hide Flow, Replies;
      var txSize, rxSize := size, size;
      ghost var t, r := 0, 0;
      assert out[..0] == [];
      while txSize > 0 || rxSize > 0
        invariant 0 <= txSize && 0 <= rxSize && txSize + t == size && rxSize + r == size && r <= t <= r + depth
        invariant Flow(slave, before, out[..t], r, mosi, txq, rxq) && !overrun
        invariant headPeak <= depth && peak <= depth + 1
        invariant forall k :: t <= k < size ==> txData[k] == out[k]
        invariant forall k :: 0 <= k < r ==> rxData[k] == Replies(slave, before, out)[k]
        invariant forall k :: size <= k < rxData.Length ==> rxData[k] == old(rxData[k])
        decreases 2 * txSize + |txq| + rxSize, patience
      {
        var next := if txSize > 0 then txData[size - txSize] else 0;
        var pushed, got, b := Round(next, txSize, rxSize, before, out[..t], r);
        if pushed {
          assert out[..t + 1] == out[..t] + [next];
          txSize, t := txSize - 1, t + 1;
        }
        if got {
          ReplyOfPrefix(slave, before, out, t, r);
          rxData[size - rxSize] := b;
          rxSize, r := rxSize - 1, r + 1;
        }
      }
      assert out[..size] == out;
    }

    /** The wait for EOT, which is raised, sooner or later, once TSIZE bytes have been clocked; with TSIZE 0 never. */
    method AwaitEot()
      requires 0 < tsize && |mosi| == startAt + tsize
      modifies this`eot, this`patience
      ensures eot && patience <= old(patience)
    {
      eot := false;
      while !eot
        invariant patience <= old(patience)
        decreases patience + if eot then 0 else 1
      {
        var late: bool := *;
        eot := tsize > 0 && |mosi| >= startAt + tsize && !(late && patience > 0);
        if patience > 0 {
          patience := patience - 1;
        }
      }
    }

    /** For any transfer size, any clock and flag timing, and whether or not the two buffers are the same array: the
        transmitted bytes are the buffer as it was at the call, the received bytes are the device's replies to them in
        order, at most `depth` bytes are in flight at a loop head and depth + 1 anywhere, and an RX FIFO of depth + 1
        never overruns. A call on a busy peripheral does nothing. */
    method TransferFullDuplexBlocking(txData: array<byte>, rxData: array<byte>, size: nat)
      requires 0 < size <= txData.Length && size <= rxData.Length && size < 0x1_0000
      requires 0 < depth < rxDepth
      requires state == Ready ==> txq == [] && rxq == [] && !overrun
      modifies this, rxData
      ensures old(state) != Ready ==>
                && rxData[..] == old(rxData[..]) && mosi == old(mosi)
                && txq == old(txq) && rxq == old(rxq) && state == old(state) && overrun == old(overrun)
      ensures old(state) == Ready ==>
                && mosi == old(mosi) + old(txData[..size])
                && rxData[..size] == Replies(slave, old(mosi), old(txData[..size]))
                && (forall k :: size <= k < rxData.Length ==> rxData[k] == old(rxData[k]))
                && state == Ready && !enabled && !eot && txq == [] && rxq == [] && !overrun && tsize == size
                && headPeak <= depth && peak <= depth + 1
    {
      if state != Ready {
        return;
      }
      state := BusyTxRx;
      ghost var before, out := mosi, txData[..size];
      headPeak, peak := 0, 0;
      tsize := size;
      enabled := true;
      startAt := |mosi|; // CSTART
      FlowStart(slave, before);
      hide Flow, Replies;
      TransferLoop(txData, rxData, size, before, out);
      FlowSizes(slave, before, out, size, mosi, txq, rxq);
      AwaitEot();
      eot := false;
      enabled := false;
      state := Ready;
    }
  }

  lemma ReplyOfPrefix(slave: seq<byte> -> byte, before: seq<byte>, sent: seq<byte>, n: nat, i: nat)
    requires i < n <= |sent|
    ensures Replies(slave, before, sent[..n])[i] == Replies(slave, before, sent)[i]
  {
    RepliesPrefix(slave, before, sent, n);
    assert Replies(slave, before, sent)[..n][i] == Replies(slave, before, sent)[i];
  }

  // The fill levels alone, under every interleaving of loop statements and clock.

  /** tx: bytes in the TX FIFO and shifter; rx: bytes in the RX FIFO; atRead: between the two halves of the body. */
  datatype Levels = Levels(toSend: nat, tx: nat, rx: nat, atRead: bool)

  /** TXP seen or not; RX level seen; a byte clocked. TXP is only seen when there is room. */
  datatype Move = Push | SkipPush | Read | SkipRead | Clocked

  predicate CanMove(depth: nat, l: Levels, m: Move) {
    match m
    case Push => !l.atRead && l.tx < depth && l.toSend > 0
    case SkipPush => !l.atRead
    case Read => l.atRead && l.rx > 0
    case SkipRead => l.atRead && l.rx == 0
    case Clocked => l.tx > 0
  }

  function Moved(l: Levels, m: Move): Levels {
    match m
    case Push => l.(toSend := if l.toSend > 0 then l.toSend - 1 else 0, tx := l.tx + 1, atRead := true)
    case SkipPush => l.(atRead := true)
    case Read => l.(rx := if l.rx > 0 then l.rx - 1 else 0, atRead := false)
    case SkipRead => l.(atRead := false)
    case Clocked => l.(tx := if l.tx > 0 then l.tx - 1 else 0, rx := l.rx + 1)
  }

  predicate ValidMoves(depth: nat, l: Levels, moves: seq<Move>)
    decreases moves
  {
    moves == [] || (CanMove(depth, l, moves[0]) && ValidMoves(depth, Moved(l, moves[0]), moves[1..]))
  }

  function AfterMoves(l: Levels, moves: seq<Move>): Levels
    decreases moves
  {
    if moves == [] then l else AfterMoves(Moved(l, moves[0]), moves[1..])
  }

  predicate Bounded(depth: nat, l: Levels) {
    l.tx <= depth && l.tx + l.rx <= depth + if l.atRead then 1 else 0
  }

  /** At most depth bytes in flight at every loop head and depth + 1 inside the body. */
  lemma {:induction false} InFlightBound(depth: nat, l: Levels, moves: seq<Move>)
    requires Bounded(depth, l) && ValidMoves(depth, l, moves)
    ensures Bounded(depth, AfterMoves(l, moves)) && AfterMoves(l, moves).rx <= depth + 1
    decreases moves
  {
    if moves != [] {
      InFlightBound(depth, Moved(l, moves[0]), moves[1..]);
    }
  }

  function Fill(n: nat): seq<Move> {
    if n == 0 then [] else [Push, SkipRead] + Fill(n - 1)
  }

  function Drain(n: nat): seq<Move> {
    if n == 0 then [] else [Clocked] + Drain(n - 1)
  }

  lemma {:induction false} MovesAppend(depth: nat, l: Levels, a: seq<Move>, b: seq<Move>)
    requires ValidMoves(depth, l, a) && ValidMoves(depth, AfterMoves(l, a), b)
    ensures ValidMoves(depth, l, a + b) && AfterMoves(l, a + b) == AfterMoves(AfterMoves(l, a), b)
    decreases a
  {
    if a == [] {
      assert a + b == b;
    } else {
      assert (a + b)[1..] == a[1..] + b;
      MovesAppend(depth, Moved(l, a[0]), a[1..], b);
    }
  }

  lemma {:induction false} FillMoves(depth: nat, l: Levels, n: nat)
    requires !l.atRead && l.rx == 0 && l.tx + n <= depth && n <= l.toSend
    ensures ValidMoves(depth, l, Fill(n))
    ensures AfterMoves(l, Fill(n)) == Levels(l.toSend - n, l.tx + n, 0, false)
    decreases n
  {
    if n > 0 {
      var m := Moved(Moved(l, Push), SkipRead);
      FillMoves(depth, m, n - 1);
      assert Fill(n)[1..] == [SkipRead] + Fill(n - 1) && Fill(n)[1..][1..] == Fill(n - 1);
    }
  }

  lemma {:induction false} DrainMoves(depth: nat, l: Levels, n: nat)
    requires n <= l.tx
    ensures ValidMoves(depth, l, Drain(n)) && AfterMoves(l, Drain(n)) == l.(tx := l.tx - n, rx := l.rx + n)
    decreases n
  {
    if n > 0 {
      DrainMoves(depth, Moved(l, Clocked), n - 1);
      assert Drain(n)[1..] == Drain(n - 1);
    }
  }

  /** The bound is tight: a thread preempted at the right points finds depth + 1 unread bytes, so an RX FIFO of only
      depth bytes overruns. */
  lemma BoundIsTight(depth: nat)
    requires depth > 0
    ensures var moves := Fill(depth) + Drain(depth) + [Push, Clocked];
            && ValidMoves(depth, Levels(depth + 1, 0, 0, false), moves)
            && AfterMoves(Levels(depth + 1, 0, 0, false), moves).rx == depth + 1
  {
    var l := Levels(depth + 1, 0, 0, false);
    FillMoves(depth, l, depth);
    var full := AfterMoves(l, Fill(depth));
    DrainMoves(depth, full, depth);
    MovesAppend(depth, l, Fill(depth), Drain(depth));
    var unread := Levels(1, 0, depth, false);
    assert [Push, Clocked][1..] == [Clocked] && [Clocked][1..] == [];
    assert AfterMoves(Moved(unread, Push), [Clocked]) == Levels(0, 0, depth + 1, true);
    MovesAppend(depth, l, Fill(depth) + Drain(depth), [Push, Clocked]);
  }
}
