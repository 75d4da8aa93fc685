/** quasar_uart.c as code: the transmit and receive calls and the interrupt routine of one UART, each run on its own.

    UartModel is about their interleavings; EntryMatches, CallMatches and ReceiveMatches below say that an uninterrupted
    run of its statements has the effect that the contracts here state. */
module UartDriver {
  import opened Words
  import opened Ring
  import Fifo
  import Critical
  import opened UartModel

  function Least(a: nat, b: nat): nat { if a <= b then a else b }

  /** If TXE and TXEIE are set, one byte goes to TDR or, with an empty queue, TXEIE is cleared. */
  ghost predicate TransmitEffect(tx: seq<byte>, txe: bool, txeie: bool, tdr: seq<byte>,
                                 tx': seq<byte>, txe': bool, txeie': bool, tdr': seq<byte>)
  {
    if !(txe && txeie) then tx' == tx && tdr' == tdr && txe' == txe && txeie' == txeie
    else if tx == [] then tx' == tx && tdr' == tdr && txe' && !txeie'
    else tx' == tx[1..] && tdr' == tdr + [tx[0]] && !txe' && txeie'
  }

  /** If TC and TCIE are set, the HAL handle is READY again and the interrupt off. */
  ghost predicate CompleteEffect(tc: bool, tcie: bool, gReady: bool, txIsr: bool,
                                 tcie': bool, gReady': bool, txIsr': bool)
  {
    if tc && tcie then !tcie' && gReady' && !txIsr' else tcie' == tcie && gReady' == gReady && txIsr' == txIsr
  }

  /** n bytes move from the hardware FIFO, as far as the software queue has room. */
  ghost predicate DrainEffect(n: nat, hwRx: seq<byte>, rx: seq<byte>, hwRx': seq<byte>, rx': seq<byte>) {
    n <= |hwRx| && hwRx' == hwRx[n..] && rx' == rx + Fitting(hwRx[..n], |rx|)
  }

  /** What one handler entry does with no arrival in between: n bytes move from the hardware FIFO, as far as the
      software queue has room; and if TXE and TXEIE are set, one byte goes to TDR or TXEIE is cleared. */
  ghost predicate EntryEffect(n: nat,
                              hwRx: seq<byte>, rx: seq<byte>, tx: seq<byte>,
                              txe: bool, txeie: bool, tdr: seq<byte>,
                              hwRx': seq<byte>, rx': seq<byte>, tx': seq<byte>,
                              txe': bool, txeie': bool, tdr': seq<byte>)
  {
    && DrainEffect(n, hwRx, rx, hwRx', rx')
    && TransmitEffect(tx, txe, txeie, tdr, tx', txe', txeie', tdr')
  }

  class Uart1 {
    const rxFifo: Fifo.Fifo
    const txFifo: Fifo.Fifo
    const it: Critical.Interrupts
    var txeie: bool
    var txe: bool
    var hwRx: seq<byte>
    var ore: bool
    var tdr: seq<byte>
    /** CR3.DMAR; ISR.TC and CR1.TCIE; the HAL handle's gState is READY and its TxISR not null. */
    var dmar: bool
    var tc: bool
    var tcie: bool
    var gReady: bool
    var txIsr: bool
    /** How often the receive callback has been called. */
    var callbacks: nat

    ghost predicate Valid()
      reads this, rxFifo, rxFifo.data, txFifo, txFifo.data
    {
      rxFifo.Valid() && txFifo.Valid() && rxFifo != txFifo && rxFifo.data != txFifo.data
    }

    constructor (it: Critical.Interrupts)
      ensures Valid() && rxFifo.Contents() == [] && txFifo.Contents() == [] && this.it == it
      ensures fresh(rxFifo) && fresh(rxFifo.data) && fresh(txFifo) && fresh(txFifo.data)
    {
      this.it := it;
      rxFifo := new Fifo.Fifo();
      txFifo := new Fifo.Fifo();
      txeie, txe, hwRx, ore, tdr := false, true, [], false, [];
      dmar, tc, tcie, gReady, txIsr, callbacks := false, false, false, true, false, 0;
    }

    method TransmitByteIrq(b: byte)
      requires Valid()
      modifies txFifo, txFifo.data, it, this`txeie
      ensures Valid() && txeie && rxFifo.Contents() == old(rxFifo.Contents())
      ensures txFifo.Contents() == old(txFifo.Contents()) + Fitting([b], old(txFifo.count))
      ensures old(it.mask) == Critical.Mask(0, false) ==> it.mask == old(it.mask)
    {
      it.EnterCritical();
      var _ := txFifo.Push(b);
      it.ExitCritical();
      txeie := true;
    }

    /** What does not fit is dropped silently; the prefix that fits is queued. */
    method TransmitBytesIrq(data: seq<byte>, size: nat)
      requires Valid() && size <= |data|
      modifies txFifo, txFifo.data, it, this`txeie
      ensures Valid() && txeie && rxFifo.Contents() == old(rxFifo.Contents())
      ensures txFifo.Contents() == old(txFifo.Contents()) + Fitting(data[..size], old(txFifo.count))
      ensures old(it.mask) == Critical.Mask(0, false) ==> it.mask == old(it.mask)
    {
      hide Fitting;
      FittingNone(txFifo.count);
      it.EnterCritical();
      ghost var masked := it.mask;
      ghost var was, count := txFifo.Contents(), txFifo.count;
      for i := 0 to size
        invariant Valid() && it.mask == masked && rxFifo.Contents() == old(rxFifo.Contents())
        invariant txFifo.Contents() == was + Fitting(data[..i], count)
      {
        FittingRoom(data[..i], count);
        assert data[..i + 1] == data[..i] + [data[i]];
        FittingTail(data[..i], data[i], count);
        var _ := txFifo.Push(data[i]);
      }
      it.ExitCritical();
      txeie := true;
    }

    method TransmitStringIrq(text: seq<byte>, size: nat)
      requires Valid() && size <= |text|
      modifies txFifo, txFifo.data, it, this`txeie
      ensures Valid() && txeie && rxFifo.Contents() == old(rxFifo.Contents())
      ensures txFifo.Contents() == old(txFifo.Contents()) + Fitting(text[..size], old(txFifo.count))
      ensures old(it.mask) == Critical.Mask(0, false) ==> it.mask == old(it.mask)
    {
      hide Fitting;
      FittingNone(txFifo.count);
      it.EnterCritical();
      ghost var masked := it.mask;
      ghost var was, count := txFifo.Contents(), txFifo.count;
      var at := 0; // string_to_transmit
      for i := 0 to size
        invariant at == i && Valid() && it.mask == masked && rxFifo.Contents() == old(rxFifo.Contents())
        invariant txFifo.Contents() == was + Fitting(text[..i], count)
      {
        FittingRoom(text[..i], count);
        assert text[..i + 1] == text[..i] + [text[i]];
        FittingTail(text[..i], text[i], count);
        var _ := txFifo.Push(text[at]);
        at := at + 1;
      }
      it.ExitCritical();
      txeie := true;
    }

    /** Zero stands for both an empty queue and a received zero. */
    method ReceiveIrq() returns (b: byte)
      requires Valid()
      modifies rxFifo, it
      ensures Valid() && txFifo.Contents() == old(txFifo.Contents())
      ensures b == if old(rxFifo.Contents()) == [] then 0 else old(rxFifo.Contents())[0]
      ensures rxFifo.Contents() == Fifo.Rest(old(rxFifo.Contents()), 1)
      ensures old(it.mask) == Critical.Mask(0, false) ==> it.mask == old(it.mask)
    {
      b := 0;
      it.EnterCritical();
      var count := rxFifo.GetCount();
      if count != 0 {
        var _, pulled := rxFifo.Pull(b);
        b := pulled;
      }
      it.ExitCritical();
    }

    /** The drain loop of the handler. */
    method DrainHardware(callback: bool)
      requires Valid()
      modifies this`hwRx, this`callbacks, rxFifo, rxFifo.data
      ensures Valid() && txFifo.Contents() == old(txFifo.Contents())
      ensures var n := if dmar then 0 else Least(DEPTH, |old(hwRx)|);
              && callbacks == old(callbacks) + (if callback then n else 0)
              && DrainEffect(n, old(hwRx), old(rxFifo.Contents()), hwRx, rxFifo.Contents())
    {
      hide DrainEffect, Window;
      DrainNothing(hwRx, rxFifo.Contents());
      ghost var queued, waiting := rxFifo.Contents(), hwRx;
      var slot := 0;
      while slot < DEPTH && hwRx != [] && !dmar
        invariant slot <= DEPTH && slot + |hwRx| == |waiting| && (dmar ==> slot == 0)
        invariant callbacks == old(callbacks) + if callback then slot else 0
        invariant Valid() && DrainEffect(slot, waiting, queued, hwRx, rxFifo.Contents())
        invariant txFifo.Contents() == old(txFifo.Contents())
        decreases DEPTH - slot
      {
        DrainMore(slot, waiting, queued, hwRx, rxFifo.Contents());
        var rxByte := hwRx[0];
        hwRx := hwRx[1..];
        var _ := rxFifo.Push(rxByte);
        if callback {
          callbacks := callbacks + 1;
        }
        slot := slot + 1;
      }
    }

    /** The transmit part of the handler. */
    method ServeTransmitter()
      requires Valid()
      modifies this`tdr, this`txe, this`txeie, txFifo
      ensures Valid() && rxFifo.Contents() == old(rxFifo.Contents())
      ensures TransmitEffect(old(txFifo.Contents()), old(txe), old(txeie), old(tdr), txFifo.Contents(), txe, txeie, tdr)
    {
      if txe && txeie {
        var n := txFifo.GetCount();
        if n > 0 {
          var _, newData := txFifo.Pull(0);
          tdr, txe := tdr + [newData], false;
        } else if n <= 0 {
          txeie := false;
        }
      }
    }

    /** The end of a transmission in blocking or DMA mode, and the overrun flag. */
    method CompleteAndClear()
      modifies this`tcie, this`gReady, this`txIsr, this`ore
      ensures !ore && CompleteEffect(tc, old(tcie), old(gReady), old(txIsr), tcie, gReady, txIsr)
    {
      if tc && tcie {
        tcie := false;
        gReady := true;
        txIsr := false;
      }
      if ore {
        ore := false;
      }
    }

    /** uart_irq_handler_routine; `callback` says that a receive callback is registered. While DMA receives, no byte is
        taken. */
    method IrqHandlerRoutine(callback: bool)
      requires Valid()
      modifies this, rxFifo, rxFifo.data, txFifo
      ensures Valid()
      ensures var n := if dmar then 0 else Least(DEPTH, |old(hwRx)|);
              && EntryEffect(
                   n, old(hwRx), old(rxFifo.Contents()), old(txFifo.Contents()), old(txe), old(txeie),
                   old(tdr), hwRx, rxFifo.Contents(), txFifo.Contents(), txe, txeie, tdr)
              && callbacks == old(callbacks) + if callback then n else 0
      ensures !ore && dmar == old(dmar) && tc == old(tc)
      ensures CompleteEffect(tc, old(tcie), old(gReady), old(txIsr), tcie, gReady, txIsr)
    {
      hide Fitting, TransmitEffect, DrainEffect, CompleteEffect, Window, Least;
      DrainHardware(callback);
      ServeTransmitter();
      CompleteAndClear();
    }
  }

  lemma FittingTail(s: seq<byte>, b: byte, count: nat)
    requires count <= SIZE
    ensures Fitting(s + [b], count) == Fitting(s, count) + (if count + |Fitting(s, count)| >= SIZE then [] else [b])
  {
  }

  lemma DrainNothing(hwRx: seq<byte>, rx: seq<byte>)
    ensures DrainEffect(0, hwRx, rx, hwRx, rx)
  {
    assert hwRx[..0] == [] && hwRx[0..] == hwRx;
    FittingNone(|rx|);
  }

  lemma DrainMore(n: nat, hwRx: seq<byte>, rx: seq<byte>, hwRx': seq<byte>, rx': seq<byte>)
    requires DrainEffect(n, hwRx, rx, hwRx', rx') && hwRx' != [] && |rx'| <= SIZE
    ensures DrainEffect(n + 1, hwRx, rx, hwRx'[1..], if |rx'| == SIZE then rx' else rx' + [hwRx'[0]])
  {
    assert hwRx[..n + 1] == hwRx[..n] + [hwRx'[0]];
    FittingTail(hwRx[..n], hwRx'[0], |rx|);
    hide Fitting;
    assert rx + (Fitting(hwRx[..n], |rx|) + [hwRx'[0]]) == rx + Fitting(hwRx[..n], |rx|) + [hwRx'[0]];
  }

  lemma FittingNone(count: nat)
    ensures Fitting([], count) == []
  {
  }

  lemma FittingRoom(s: seq<byte>, count: nat)
    requires count <= SIZE
    ensures count + |Fitting(s, count)| <= SIZE
  {
  }

  // The statement-level model, left alone, does the same.

  /** The rest of a handler entry with no arrival in between. */
  function Entry(s: Uart): Uart
    decreases StepsToReturn(s.handler)
  {
    if s.handler == Idle || (s.handler.Rx? && s.handler.slot > DEPTH) then s else Entry(HandlerStepped(s))
  }

  ghost predicate SoundUart(s: Uart) { Sound(s.tx) && Sound(s.rx) }

  lemma TransmitPart(s: Uart)
    requires SoundUart(s) && s.handler == Tx
    ensures var t := Entry(s);
            && SoundUart(t) && t.handler == Idle && !t.ore && t.rx == s.rx
            && EntryEffect(0, s.hwRx, Bytes(s.rx), Bytes(s.tx), s.txe, s.txeie, s.log.sent,
                           t.hwRx, Bytes(t.rx), Bytes(t.tx), t.txe, t.txeie, t.log.sent)
  {
    TransmitStep(s);
    var t := HandlerStepped(s);
    OverrunPart(t);
    assert Entry(s) == Entry(t);
    DrainNothing(s.hwRx, Bytes(s.rx));
    hide HandlerStepped, TransmitEffect, DrainEffect, Window, Entry;
  }

  lemma TransmitStep(s: Uart)
    requires SoundUart(s) && s.handler == Tx
    ensures var t := HandlerStepped(s);
            && SoundUart(t) && t.handler == Overrun && t.rx == s.rx && t.hwRx == s.hwRx
            && TransmitEffect(Bytes(s.tx), s.txe, s.txeie, s.log.sent, Bytes(t.tx), t.txe, t.txeie, t.log.sent)
  {
    if s.tx.count > 0 {
      WindowDrop(s.tx.data, s.tx.indexOut, s.tx.count);
    }
  }

  /** The read of ISR for ORE, the write to ICR and the return. */
  lemma OverrunPart(s: Uart)
    requires s.handler == Overrun
    ensures var t := Entry(s); t == s.(handler := Idle, ore := false, log := s.log.(atRead := s.log.overruns))
  {
    var t := HandlerStepped(s);
    var u := HandlerStepped(t);
    var v := HandlerStepped(u);
    assert Entry(s) == Entry(t) && Entry(t) == Entry(u);
    if s.ore {
      assert v.handler == Idle && Entry(u) == Entry(v) == v;
    } else {
      assert u.handler == Idle && Entry(u) == u;
    }
  }

  lemma {:induction false} EntryMatches(s: Uart)
    requires SoundUart(s) && s.handler.Rx? && s.handler.slot <= DEPTH
    ensures var t := Entry(s);
            && SoundUart(t) && t.handler == Idle && !t.ore
            && EntryEffect(Least(DEPTH - s.handler.slot, |s.hwRx|), s.hwRx, Bytes(s.rx), Bytes(s.tx), s.txe, s.txeie,
                           s.log.sent, t.hwRx, Bytes(t.rx), Bytes(t.tx), t.txe, t.txeie, t.log.sent)
    decreases DEPTH - s.handler.slot
  {
    hide Fitting, Window, EntryEffect;
    var n, h := Least(DEPTH - s.handler.slot, |s.hwRx|), HandlerStepped(s);
    assert Entry(s) == Entry(h);
    if s.handler.slot < DEPTH && s.hwRx != [] {
      SlotMatches(s.rx, s.hwRx[0]);
      EntryMatches(h);
      var t := Entry(h);
      OneMoreSlot(n, s.hwRx, Bytes(s.rx), Bytes(s.tx), s.txe, s.txeie, s.log.sent, t);
    } else {
      TransmitPart(h);
    }
  }

  lemma OneMoreSlot(n: nat, hwRx: seq<byte>, rx: seq<byte>, tx: seq<byte>, txe: bool, txeie: bool, tdr: seq<byte>,
                    t: Uart)
    requires 0 < n <= |hwRx| && |rx| <= SIZE && SoundUart(t)
    requires EntryEffect(n - 1, hwRx[1..], rx + Fitting([hwRx[0]], |rx|), tx, txe, txeie, tdr,
                         t.hwRx, Bytes(t.rx), Bytes(t.tx), t.txe, t.txeie, t.log.sent)
    ensures EntryEffect(n, hwRx, rx, tx, txe, txeie, tdr,
                        t.hwRx, Bytes(t.rx), Bytes(t.tx), t.txe, t.txeie, t.log.sent)
  {
    hide Window;
    var b, moved := hwRx[0], hwRx[1..][..n - 1];
    assert hwRx[1..][n - 1..] == hwRx[n..] && hwRx[..n] == [b] + moved;
    FittingFirst(b, moved, |rx|);
    hide Fitting;
    var f, g := Fitting([b], |rx|), Fitting(moved, |rx| + |Fitting([b], |rx|)|);
    assert rx + f + g == rx + (f + g);
  }

  lemma SlotMatches(q: Queue, b: byte)
    requires Sound(q)
    ensures Sound(Put(q, b)) && Bytes(Put(q, b)) == Bytes(q) + Fitting([b], q.count)
    ensures Put(q, b).count == q.count + |Fitting([b], q.count)|
  {
    if q.count < SIZE {
      WindowAppend(q.data, q.indexOut, q.count, b);
    }
  }

  lemma FittingFirst(b: byte, s: seq<byte>, count: nat)
    requires count <= SIZE
    ensures Fitting([b] + s, count) == Fitting([b], count) + Fitting(s, count + |Fitting([b], count)|)
  {
  }

  /** Where a transmit call stands when only the thread runs. */
  ghost predicate Transmitting(s: Uart, u: Uart, buffer: seq<byte>) {
    && u.handler == Idle && u.outer == s.outer && u.rx == s.rx && u.log.sent == s.log.sent
    && (if
          || u.pc == Enter0(Transmit(buffer))
          || (u.pc.Enter1? && u.pc.job == Transmit(buffer))
          || u.pc == Enter2(Transmit(buffer))
        then u.tx == s.tx && u.log.promised == s.log.promised
        else
          && u.log.promised == s.log.promised + Fitting(buffer, s.tx.count)
          && (WillKick(u.pc) || (u.pc == Outside && u.txeie)))
  }

  lemma {:induction false} TransmittingOn(s: Uart, u: Uart, buffer: seq<byte>, n: nat)
    requires Inv(u) && Transmitting(s, u, buffer)
    ensures Inv(Alone(u, n)) && Transmitting(s, Alone(u, n), buffer)
    decreases n
  {
    if n > 0 && u.pc != Outside {
      ThreadKeeps(u);
      TransmittingStep(s, u, buffer);
      TransmittingOn(s, ThreadStep(u), buffer, n - 1);
    }
  }

  lemma TransmittingStep(s: Uart, u: Uart, buffer: seq<byte>)
    requires Transmitting(s, u, buffer) && u.pc != Outside
    ensures Transmitting(s, ThreadStep(u), buffer)
  {
    hide Fitting;
  }

  /** n thread statements with nothing in between, or fewer if the call returns. */
  function Alone(u: Uart, n: nat): Uart
    decreases n
  {
    if n == 0 || u.pc == Outside then u else Alone(ThreadStep(u), n - 1)
  }

  /** Thread statements still to come in a transmit call. */
  function Remaining(pc: Pc): nat {
    match pc
    case Enter0(job) => if job.Transmit? then 5 * |job.buffer| + 8 else 0
    case Enter1(job, _) => if job.Transmit? then 5 * |job.buffer| + 7 else 0
    case Enter2(job) => if job.Transmit? then 5 * |job.buffer| + 6 else 0
    case Loop(rest) => 5 * |rest| + 5
    case Push1(rest) => 5 * |rest| + 4
    case Push2(rest) => 5 * |rest| + 3
    case Push3(rest) => 5 * |rest| + 2
    case Push4(rest) => 5 * |rest| + 1
    case Exit0(_) => 4
    case Exit1(_) => 3
    case Cr0 => 2
    case Cr1(_) => 1
    case _ => 0
  }

  /** The call returns. */
  lemma {:induction false} CallReturns(s: Uart, u: Uart, buffer: seq<byte>, n: nat)
    requires Inv(u) && Transmitting(s, u, buffer) && Remaining(u.pc) <= n
    ensures Alone(u, n).pc == Outside
    decreases n
  {
    if n > 0 && u.pc != Outside {
      ThreadKeeps(u);
      TransmittingStep(s, u, buffer);
      CloserToReturn(s, u, buffer);
      CallReturns(s, ThreadStep(u), buffer, n - 1);
    }
  }

  lemma CloserInPush(u: Uart)
    requires InPush(u.pc) && TxOk(u.pc, u.tx)
    ensures Remaining(PushStep(u).pc) < Remaining(u.pc)
  {
  }

  lemma CloserOutsidePush(u: Uart, buffer: seq<byte>)
    requires !InPush(u.pc) && u.pc != Outside
    requires WillKick(u.pc) || u.pc == Enter0(Transmit(buffer)) || (u.pc.Enter1? && u.pc.job == Transmit(buffer))
             || u.pc == Enter2(Transmit(buffer))
    ensures Remaining(ThreadStep(u).pc) < Remaining(u.pc)
  {
    hide Fitting;
  }

  lemma CloserToReturn(s: Uart, u: Uart, buffer: seq<byte>)
    requires Inv(u) && Transmitting(s, u, buffer) && u.pc != Outside
    ensures Remaining(ThreadStep(u).pc) < Remaining(u.pc)
  {
    hide Fitting, RxInv, MaskOk, PushStep, SectionStep, TakeStep, KickStep, Remaining, Sound;
    if InPush(u.pc) {
      CloserInPush(u);
    } else {
      CloserOutsidePush(u, buffer);
    }
  }

  /** A transmit call whose statements run without interruption returns, and has then the effect TransmitBytesIrq
      states: the fitting prefix queued, TXEIE set, the nesting and the receive side as before. */
  lemma CallMatches(s: Uart, buffer: seq<byte>, n: nat)
    requires Inv(s) && s.handler == Idle && s.pc == Outside
    requires n >= 5 * |buffer| + 8
    ensures var t := Alone(Stepped(s, Call(Transmit(buffer))), n);
            && t.pc == Outside && |t.tx.data| == SIZE && Bytes(t.tx) == Bytes(s.tx) + Fitting(buffer, s.tx.count)
            && t.txeie && t.mask == s.mask && t.rx == s.rx
  {
    hide MaskOk, RxInv, TxOk, ThreadStep;
    var u := Stepped(s, Call(Transmit(buffer)));
    StepKeepsInv(s, Call(Transmit(buffer)));
    TransmittingOn(s, u, buffer, n);
    CallReturns(s, u, buffer, n);
    CallDone(s, Alone(u, n), buffer);
  }

  lemma CallDone(s: Uart, t: Uart, buffer: seq<byte>)
    requires Inv(s) && s.pc == Outside && Inv(t) && t.pc == Outside && Transmitting(s, t, buffer)
    ensures |t.tx.data| == SIZE && Bytes(t.tx) == Bytes(s.tx) + Fitting(buffer, s.tx.count)
    ensures t.txeie && t.mask == s.mask && t.rx == s.rx
  {
    hide Fitting, Window, RxInv;
    var fits := Fitting(buffer, s.tx.count);
    assert s.log.sent + Bytes(s.tx) == s.log.promised by {
      assert s.log.sent + Bytes(s.tx) + [] == s.log.promised;
    }
    assert s.log.sent + Bytes(t.tx) == s.log.promised + fits by {
      assert t.log.sent + Bytes(t.tx) + [] == t.log.promised;
    }
    assert s.log.sent + Bytes(s.tx) + fits == s.log.sent + (Bytes(s.tx) + fits);
    Cancel(s.log.sent, Bytes(t.tx), Bytes(s.tx) + fits);
  }

  lemma Cancel(a: seq<byte>, b: seq<byte>, c: seq<byte>)
    requires a + b == a + c
    ensures b == c
  {
    assert (a + b)[|a|..] == b && (a + c)[|a|..] == c;
  }

  /** Where a receive call stands when only the thread runs: the byte at the front of the queue is on its way out. */
  ghost predicate Receiving(s: Uart, u: Uart) {
    && u.handler == Idle && u.outer == s.outer && u.tx == s.tx && u.txeie == s.txeie && u.log.sent == s.log.sent
    && (match u.pc
        case Enter0(job) => job == Receive && u.rx == s.rx && u.log.delivered == s.log.delivered
        case Enter1(job, _) => job == Receive && u.rx == s.rx && u.log.delivered == s.log.delivered
        case Enter2(job) => job == Receive && u.rx == s.rx && u.log.delivered == s.log.delivered
        case Take0 => u.rx == s.rx && u.log.delivered == s.log.delivered
        case Take1 => u.rx == s.rx && u.log.delivered == s.log.delivered && s.rx.count > 0
        case Take2 => u.rx == s.rx && u.log.delivered == s.log.delivered && s.rx.count > 0
        case Take3(b) => u.rx == s.rx && u.log.delivered == s.log.delivered && s.rx.count > 0 && b == Front(s.rx)
        case Take4(b) =>
          && u.rx == s.rx.(indexOut := s.rx.indexOut + 1) && u.log.delivered == s.log.delivered
          && s.rx.count > 0 && b == Front(s.rx)
        case Take5(b) =>
          && u.rx == s.rx.(indexOut := (s.rx.indexOut + 1) % SIZE) && u.log.delivered == s.log.delivered
          && s.rx.count > 0 && b == Front(s.rx)
        case Exit0(after) => after == Done && Received(s, u)
        case Exit1(after) => after == Done && Received(s, u)
        case Outside => Received(s, u)
        case _ => false)
  }

  predicate Received(s: Uart, u: Uart) {
    && u.rx == Drop(s.rx)
    && u.log.delivered == s.log.delivered + if s.rx.count > 0 then [Front(s.rx)] else []
  }

  lemma ReceivingStep(s: Uart, u: Uart)
    requires Sound(s.rx) && Receiving(s, u) && u.pc != Outside
    ensures Receiving(s, ThreadStep(u)) && ReceiveSteps(ThreadStep(u).pc) < ReceiveSteps(u.pc)
  {
    hide Receiving, ThreadStep, Sound, ReceiveSteps;
    ReceivingCases(s, u);
    if InTake(u.pc) {
      ReceivingTakes(s, u);
    } else {
      ReceivingSection(s, u);
    }
  }

  lemma ReceivingCases(s: Uart, u: Uart)
    requires Receiving(s, u) && u.pc != Outside
    ensures InTake(u.pc) || u.pc.Enter0? || u.pc.Enter1? || u.pc.Enter2? || u.pc.Exit0? || u.pc.Exit1?
  {
  }

  lemma ReceivingTakes(s: Uart, u: Uart)
    requires Sound(s.rx) && Receiving(s, u) && InTake(u.pc)
    ensures Receiving(s, ThreadStep(u)) && ReceiveSteps(ThreadStep(u).pc) < ReceiveSteps(u.pc)
  {
    assert ThreadStep(u) == TakeStep(u);
    hide ThreadStep, TakeStep, Receiving, Sound, ReceiveSteps;
    if u.pc.Take5? {
      TakesLast(s, u);
    } else if u.pc.Take3? || u.pc.Take4? {
      TakesIndex(s, u);
    } else {
      TakesByte(s, u);
    }
  }

  lemma TakesByte(s: Uart, u: Uart)
    requires Sound(s.rx) && Receiving(s, u) && (u.pc.Take0? || u.pc.Take1? || u.pc.Take2?)
    ensures Receiving(s, TakeStep(u)) && ReceiveSteps(TakeStep(u).pc) < ReceiveSteps(u.pc)
  {
    EmptyStays(s.rx);
    hide Drop;
  }

  lemma TakesIndex(s: Uart, u: Uart)
    requires Sound(s.rx) && Receiving(s, u) && (u.pc.Take3? || u.pc.Take4?)
    ensures Receiving(s, TakeStep(u)) && ReceiveSteps(TakeStep(u).pc) < ReceiveSteps(u.pc)
  {
    hide Drop, Front, Sound;
  }

  lemma TakesLast(s: Uart, u: Uart)
    requires Sound(s.rx) && Receiving(s, u) && u.pc.Take5?
    ensures Receiving(s, TakeStep(u)) && ReceiveSteps(TakeStep(u).pc) < ReceiveSteps(u.pc)
  {
    TakenLast(s.rx, u.rx);
    hide Drop, Front, Sound;
  }

  lemma TakenLast(q: Queue, r: Queue)
    requires q.count > 0 && r == q.(indexOut := (q.indexOut + 1) % SIZE)
    ensures r.count > 0 && Drop(q) == r.(count := r.count - 1)
  {
  }

  lemma EmptyStays(q: Queue)
    ensures q.count == 0 ==> Drop(q) == q
  {
  }

  lemma ReceivingSection(s: Uart, u: Uart)
    requires Receiving(s, u) && (u.pc.Enter0? || u.pc.Enter1? || u.pc.Enter2? || u.pc.Exit0? || u.pc.Exit1?)
    ensures Receiving(s, ThreadStep(u)) && ReceiveSteps(ThreadStep(u).pc) < ReceiveSteps(u.pc)
  {
    assert ThreadStep(u) == SectionStep(u);
    hide ThreadStep, Drop, Front;
  }

  /** Thread statements still to come in a receive call, at most. */
  function ReceiveSteps(pc: Pc): nat {
    match pc
    case Enter0(_) => 11
    case Enter1(_, _) => 10
    case Enter2(_) => 9
    case Take0 => 8
    case Take1 => 7
    case Take2 => 6
    case Take3(_) => 5
    case Take4(_) => 4
    case Take5(_) => 3
    case Exit0(_) => 2
    case Exit1(_) => 1
    case _ => 0
  }

  lemma {:induction false} ReceivingOn(s: Uart, u: Uart, n: nat)
    requires Inv(u) && Sound(s.rx) && Receiving(s, u) && n >= ReceiveSteps(u.pc)
    ensures Alone(u, n).pc == Outside && Inv(Alone(u, n)) && Receiving(s, Alone(u, n))
    decreases n
  {
    hide Inv, Receiving, ThreadStep;
    ReceivingIdle(s, u);
    if u.pc != Outside {
      ReceivingStep(s, u);
      ThreadKeeps(u);
      ReceivingOn(s, ThreadStep(u), n - 1);
    }
  }

  lemma ReceivingIdle(s: Uart, u: Uart)
    requires Receiving(s, u)
    ensures u.handler == Idle && (u.pc != Outside ==> ReceiveSteps(u.pc) > 0)
  {
  }

  /** A receive call whose statements run without interruption returns, and has then the effect ReceiveIrq states: the
      front of the queue handed over, nothing handed over when it is empty. */
  lemma ReceiveMatches(s: Uart, n: nat)
    requires Inv(s) && s.handler == Idle && s.pc == Outside && n >= 11
    ensures var t := Alone(Stepped(s, Call(Receive)), n);
            && t.pc == Outside && |s.rx.data| == |t.rx.data| == SIZE && t.mask == s.mask && t.tx == s.tx
            && t.txeie == s.txeie
            && Bytes(t.rx) == Fifo.Rest(Bytes(s.rx), 1)
            && t.log.delivered == s.log.delivered + if Bytes(s.rx) == [] then [] else [Bytes(s.rx)[0]]
  {
    hide ThreadStep, TxInv, Window, Subsequence;
    var u := Stepped(s, Call(Receive));
    assert Sound(s.rx);
    StepKeepsInv(s, Call(Receive));
    ReceivingOn(s, u, n);
    if s.rx.count > 0 {
      FrontAndRest(s.rx);
    }
  }
}
