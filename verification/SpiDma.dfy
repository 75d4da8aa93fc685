/** quasar_spi_transfer_full_duplex_non_blocking and the RX-DMA completion handlers that close it (GPDMA1 channel 2 for
    radio 1, channel 6 for radio 2; the code is the same and the two share no state, so one instance is modelled).

    Each register access is one step. The thread may be preempted by the handler between any two, and the transfer may
    complete at any time after it was started. The only starters are the thread and the completion callback. */
module SpiDma {
  import opened Words

  datatype Request = Request(tx: word, rx: word, size: nat)

  datatype Regs = Regs(
    txRequest: bool, rxRequest: bool, txChannel: bool, rxChannel: bool,
    txFrom: word, rxTo: word, txCount: nat, rxCount: nat, tsize: nat, enabled: bool)

  /** The handle's State, the registers, the RX-DMA completion flag, the transfer the hardware is carrying out, and how
      many starts were accepted, releases of State made by the handler, and callbacks made. */
  datatype Core = Core(
    busy: bool, regs: Regs, done: bool, flying: Option<Request>, accepted: nat, released: nat, callbacks: nat)

  datatype Op =
    | Test(req: Request) | SetBusy
    | ClearRequests | StopRx | CountRx(n: nat) | RxTo(a: word) | StartRx | RequestRx
    | StopTx | CountTx(n: nat) | TxFrom(a: word) | StartTx | SetTsize(n: nat) | RequestTx | EnableSpi | Cstart
    | Release | DisableSpi | ClearDone | Callback(restart: Option<Request>)

  const MASK := 0x1_0000 // BNDT and TSIZE are 16 bits wide

  /** The register writes of an accepted start, in program order. */
  function StartOps(req: Request): seq<Op> {
    [ClearRequests, StopRx, CountRx(req.size % MASK), RxTo(req.rx), StartRx, RequestRx,
     StopTx, CountTx(req.size % MASK), TxFrom(req.tx), StartTx, SetTsize(req.size % MASK), RequestTx, EnableSpi, Cstart]
  }

  /** The completion handler, in program order; the callback may start the next transfer. */
  function HandlerOps(restart: Option<Request>): seq<Op> {
    [Release, DisableSpi, ClearRequests, ClearDone, Callback(restart)]
  }

  function Exec(c: Core, op: Op): Core {
    var r := c.regs;
    match op
    case Test(_) => c
    case SetBusy => c.(busy := true, accepted := c.accepted + 1)
    case ClearRequests => c.(regs := r.(txRequest := false, rxRequest := false))
    case StopRx => c.(regs := r.(rxChannel := false))
    case CountRx(n) => c.(regs := r.(rxCount := n))
    case RxTo(a) => c.(regs := r.(rxTo := a))
    case StartRx => c.(regs := r.(rxChannel := true))
    case RequestRx => c.(regs := r.(rxRequest := true))
    case StopTx => c.(regs := r.(txChannel := false))
    case CountTx(n) => c.(regs := r.(txCount := n))
    case TxFrom(a) => c.(regs := r.(txFrom := a))
    case StartTx => c.(regs := r.(txChannel := true))
    case SetTsize(n) => c.(regs := r.(tsize := n))
    case RequestTx => c.(regs := r.(txRequest := true))
    case EnableSpi => c.(regs := r.(enabled := true))
    case Cstart => c.(flying := Some(Request(r.txFrom, r.rxTo, r.tsize)))
    case Release => c.(busy := false, released := c.released + 1)
    case DisableSpi => c.(regs := r.(enabled := false))
    case ClearDone => c.(done := false)
    case Callback(_) => c.(callbacks := c.callbacks + 1)
  }

  function ExecAll(c: Core, ops: seq<Op>): Core
    decreases ops
  {
    if ops == [] then c else ExecAll(Exec(c, ops[0]), ops[1..])
  }

  /** What an operation leaves for the same context to do next. */
  function Then(c: Core, op: Op, rest: seq<Op>): seq<Op> {
    match op
    case Test(req) => if c.busy then rest else [SetBusy] + StartOps(req) + rest
    case Callback(restart) => if restart.Some? then [Test(restart.value)] + rest else rest
    case _ => rest
  }

  /** Both DMA channels, both requests, the SPI and the counts are set for the request. */
  predicate Loaded(r: Regs, req: Request) {
    r == Regs(true, true, true, true, req.tx, req.rx, req.size % MASK, req.size % MASK, req.size % MASK, true)
  }

  function AsFlown(req: Request): Request { req.(size := req.size % MASK) }

  lemma ExecCons(c: Core, op: Op, rest: seq<Op>)
    ensures ExecAll(c, [op] + rest) == ExecAll(Exec(c, op), rest)
  {
  }

  lemma {:induction false} ExecAppend(c: Core, a: seq<Op>, b: seq<Op>)
    ensures ExecAll(c, a + b) == ExecAll(ExecAll(c, a), b)
    decreases a
  {
    if a == [] {
      assert a + b == b;
    } else {
      assert (a + b)[1..] == a[1..] + b;
      ExecAppend(Exec(c, a[0]), a[1..], b);
    }
  }

  /** Four writes at a time. */
  lemma ExecFour(c: Core, p: Op, q: Op, r: Op, s: Op)
    ensures ExecAll(c, [p, q, r, s]) == Exec(Exec(Exec(Exec(c, p), q), r), s)
  {
    hide Exec;
    assert [p, q, r, s] == [p] + [q, r, s] && [q, r, s] == [q] + [r, s] && [r, s] == [r] + [s] && [s] == [s] + [];
    ExecCons(c, p, [q, r, s]);
    ExecCons(Exec(c, p), q, [r, s]);
    ExecCons(Exec(Exec(c, p), q), r, [s]);
    ExecCons(Exec(Exec(Exec(c, p), q), r), s, []);
  }

  lemma LoadReceive(c: Core, a: word, n: nat)
    ensures var d := ExecAll(c, [ClearRequests, StopRx, CountRx(n), RxTo(a)]);
            d == c.(regs := c.regs.(txRequest := false, rxRequest := false, rxChannel := false, rxCount := n,
                                    rxTo := a))
  {
    hide ExecAll;
    ExecFour(c, ClearRequests, StopRx, CountRx(n), RxTo(a));
  }

  lemma LoadMiddle(c: Core, n: nat)
    ensures var d := ExecAll(c, [StartRx, RequestRx, StopTx, CountTx(n)]);
            d == c.(regs := c.regs.(rxChannel := true, rxRequest := true, txChannel := false, txCount := n))
  {
    hide ExecAll;
    ExecFour(c, StartRx, RequestRx, StopTx, CountTx(n));
  }

  lemma LoadTransmit(c: Core, a: word, n: nat)
    ensures var d := ExecAll(c, [TxFrom(a), StartTx, SetTsize(n), RequestTx]);
            d == c.(regs := c.regs.(txFrom := a, txChannel := true, tsize := n, txRequest := true))
  {
    hide ExecAll;
    ExecFour(c, TxFrom(a), StartTx, SetTsize(n), RequestTx);
  }

  lemma LoadStart(c: Core)
    ensures var d := ExecAll(c, [EnableSpi, Cstart]);
            d == c.(regs := c.regs.(enabled := true), flying := Some(Request(c.regs.txFrom, c.regs.rxTo, c.regs.tsize)))
  {
    assert [EnableSpi, Cstart] == [EnableSpi] + [Cstart] && [Cstart] == [Cstart] + [];
    ExecCons(c, EnableSpi, [Cstart]);
    ExecCons(Exec(c, EnableSpi), Cstart, []);
  }

  /** The register writes of a start do their work from any previous register contents. */
  lemma StartLoads(c: Core, req: Request)
    ensures var d := ExecAll(c, StartOps(req));
            d == c.(regs := d.regs, flying := Some(AsFlown(req))) && Loaded(d.regs, req)
  {
    var n := req.size % MASK;
    var a := [ClearRequests, StopRx, CountRx(n), RxTo(req.rx)];
    var b := [StartRx, RequestRx, StopTx, CountTx(n)];
    var e := [TxFrom(req.tx), StartTx, SetTsize(n), RequestTx];
    var f := [EnableSpi, Cstart];
    assert StartOps(req) == a + (b + (e + f));
    hide ExecAll, StartOps;
    ExecAppend(c, a, b + (e + f));
    LoadReceive(c, req.rx, n);
    ExecAppend(ExecAll(c, a), b, e + f);
    LoadMiddle(ExecAll(c, a), n);
    ExecAppend(ExecAll(ExecAll(c, a), b), e, f);
    LoadTransmit(ExecAll(ExecAll(c, a), b), req.tx, n);
    LoadStart(ExecAll(ExecAll(ExecAll(c, a), b), e));
  }

  /** The last write of a start, and only the last, starts the transfer; the others touch nothing but registers. */
  lemma StartWrite(c: Core, req: Request, k: nat)
    requires k < 14
    ensures |StartOps(req)| == 14
    ensures var op, d := StartOps(req)[k], Exec(c, StartOps(req)[k]);
            && Then(c, op, StartOps(req)[k + 1..]) == StartOps(req)[k + 1..]
            && d == c.(regs := d.regs, flying := d.flying) && (k < 13 ==> d.flying == c.flying)
  {
  }

  // The interleavings.

  /** What the interrupted thread and the handler still have to execute. */
  datatype Sys = Sys(core: Core, thread: seq<Op>, handler: seq<Op>)

  datatype Step = Call(req: Request) | Thread | Complete | Irq(restart: Option<Request>) | Handler

  predicate CanStep(s: Sys, step: Step) {
    match step
    case Call(_) => s.thread == [] && s.handler == []
    case Thread => s.thread != [] && s.handler == []
    case Complete => s.core.flying.Some?
    case Irq(_) => s.core.done && s.handler == []
    case Handler => s.handler != []
  }

  function Stepped(s: Sys, step: Step): Sys
    requires CanStep(s, step)
  {
    match step
    case Call(req) => s.(thread := [Test(req)])
    case Thread => Sys(Exec(s.core, s.thread[0]), Then(s.core, s.thread[0], s.thread[1..]), [])
    case Complete => s.(core := s.core.(flying := None, done := true))
    case Irq(restart) => s.(handler := HandlerOps(restart))
    case Handler => Sys(Exec(s.core, s.handler[0]), s.thread, Then(s.core, s.handler[0], s.handler[1..]))
  }

  predicate ValidRun(s: Sys, run: seq<Step>)
    decreases run
  {
    run == [] || (CanStep(s, run[0]) && ValidRun(Stepped(s, run[0]), run[1..]))
  }

  function Ran(s: Sys, run: seq<Step>): Sys
    requires ValidRun(s, run)
    decreases run
  {
    if run == [] then s else Ran(Stepped(s, run[0]), run[1..])
  }

  /** Where an instance stands. */
  datatype Mode =
    | Free                                        // no transfer
    | Claiming(req: Request)                      // tested READY, State not yet set
    | Starting(req: Request, k: nat)              // State set, k register writes made
    | Flying(req: Request)
    | Completed
    | Closing(restart: Option<Request>, k: nat)   // k statements of the handler executed

  /** The context that executes `ops` is in the given mode; `other` is the thread when the handler is active. */
  ghost predicate At(c: Core, ops: seq<Op>, m: Mode, handling: bool) {
    match m
    case Free => !c.busy && c.flying.None? && !c.done && (ops == [] || (|ops| == 1 && ops[0].Test?))
    case Claiming(req) => !c.busy && c.flying.None? && !c.done && ops == [SetBusy] + StartOps(req)
    case Starting(req, k) =>
      && c.busy && c.flying.None? && !c.done && k < |StartOps(req)| && ops == StartOps(req)[k..]
      && Loaded(ExecAll(c, ops).regs, req) && ExecAll(c, ops).flying == Some(AsFlown(req))
    case Flying(req) =>
      && c.busy && !c.done && c.flying == Some(AsFlown(req)) && Loaded(c.regs, req)
      && !handling && (ops == [] || (|ops| == 1 && ops[0].Test?))
    case Completed => c.busy && c.done && c.flying.None? && !handling && (ops == [] || (|ops| == 1 && ops[0].Test?))
    case Closing(restart, k) =>
      && handling && k < 5 && ops == HandlerOps(restart)[k..]
      && c.busy == (k == 0) && c.done == (k < 4) && c.flying.None?
  }

  /** An accepted start whose callback is still to come. */
  predicate Owing(m: Mode) { m.Starting? || m.Flying? || m.Completed? || m.Closing? }

  ghost predicate Inv(s: Sys, m: Mode) {
    && At(s.core, if s.handler == [] then s.thread else s.handler, m, s.handler != [])
    && (s.handler != [] ==> s.thread == [] || (|s.thread| == 1 && s.thread[0].Test?))
    && s.core.accepted == s.core.callbacks + (if Owing(m) then 1 else 0)
    && s.core.accepted == s.core.released + (if s.core.busy then 1 else 0)
  }

  /** How many statements and hardware events an owed callback is away, at most. */
  function Rank(m: Mode): nat {
    match m
    case Starting(_, k) => if k < 14 then 22 - k else 8
    case Flying(_) => 8
    case Completed => 7
    case Closing(_, k) => if k < 5 then 6 - k else 1
    case _ => 0
  }

  /** What a step of the active context leaves to count. */
  predicate SameDebt(c: Core, m: Mode, d: Core, n: Mode) {
    && d.accepted - d.callbacks - (if Owing(n) then 1 else 0) == c.accepted - c.callbacks - (if Owing(m) then 1 else 0)
    && d.accepted - d.released - (if d.busy then 1 else 0) == c.accepted - c.released - (if c.busy then 1 else 0)
  }

  /** An owed callback has been made or has come nearer. */
  predicate Nearer(c: Core, m: Mode, d: Core, n: Mode) {
    Owing(m) ==> d.callbacks == c.callbacks + 1 || (d.callbacks == c.callbacks && Owing(n) && Rank(n) < Rank(m))
  }

  lemma ClaimKeeps(c: Core, ops: seq<Op>, req: Request, handling: bool)
    requires At(c, ops, Claiming(req), handling)
    ensures ops != [] && ops[0] == SetBusy && Then(c, SetBusy, ops[1..]) == StartOps(req)
    ensures At(Exec(c, SetBusy), StartOps(req), Starting(req, 0), handling)
  {
    assert ops[1..] == StartOps(req) == StartOps(req)[0..];
    StartLoads(Exec(c, SetBusy), req);
  }

  /** Each register write of a start leaves the remaining writes to complete the set-up; the last one starts it. */
  lemma StartKeeps(c: Core, ops: seq<Op>, req: Request, k: nat, handling: bool)
    requires At(c, ops, Starting(req, k), handling)
    ensures ops != [] && k < 14 && Then(c, ops[0], ops[1..]) == ops[1..] && (ops[1..] == []) == (k == 13)
    ensures var d := Exec(c, ops[0]);
            d.accepted == c.accepted && d.callbacks == c.callbacks && d.released == c.released && d.busy == c.busy
            && At(d, ops[1..], if k < 13 then Starting(req, k + 1) else Flying(req), handling && k < 13)
  {
    assert |StartOps(req)| == 14;
    hide StartOps, Loaded, Exec, Then;
    StartWrite(c, req, k);
    assert ops[0] == StartOps(req)[k] && ops[1..] == StartOps(req)[k + 1..];
    assert ExecAll(c, ops) == ExecAll(Exec(c, ops[0]), ops[1..]);
    if k == 13 {
      assert ops[1..] == [];
    }
  }

  lemma CloseKeeps(c: Core, ops: seq<Op>, restart: Option<Request>, k: nat)
    requires At(c, ops, Closing(restart, k), true)
    ensures ops != [] && ops[0] == HandlerOps(restart)[k]
    ensures var d := Exec(c, ops[0]);
            && d.accepted == c.accepted && d.callbacks == c.callbacks + (if k == 4 then 1 else 0)
            && d.accepted - d.released - (if d.busy then 1 else 0)
               == c.accepted - c.released - (if c.busy then 1 else 0)
            && (k < 4 ==> Then(c, ops[0], ops[1..]) == ops[1..] && At(d, ops[1..], Closing(restart, k + 1), true))
            && (k == 4 ==> At(d, Then(c, ops[0], ops[1..]), Free, restart.Some?))
            && (k == 4 ==> (Then(c, ops[0], ops[1..]) == []) == restart.None?)
  {
    assert ops[1..] == HandlerOps(restart)[k + 1..];
    if k == 4 {
      assert ops[1..] == [];
    }
  }

  /** The test of a start: on a free instance it claims it, otherwise it does nothing. */
  lemma TestKeeps(c: Core, ops: seq<Op>, m: Mode, handling: bool) returns (n: Mode)
    requires At(c, ops, m, handling) && ops != [] && (m.Free? || m.Flying? || m.Completed?)
    ensures ops[0].Test? && ContextMoved(c, ops, m, handling, n)
  {
    hide Loaded, ExecAll, Exec, StartOps;
    assert Exec(c, ops[0]) == c by { TestReads(c, ops[0].req); }
    if m.Free? {
      n := Claiming(ops[0].req);
      assert [SetBusy] + StartOps(ops[0].req) + ops[1..] == [SetBusy] + StartOps(ops[0].req);
    } else {
      n := m;
    }
  }

  lemma TestReads(c: Core, req: Request)
    ensures Exec(c, Test(req)) == c
  {
  }

  /** What one operation of the active context does to its mode and to the counts. */
  ghost predicate ContextMoved(c: Core, ops: seq<Op>, m: Mode, handling: bool, n: Mode)
    requires ops != []
  {
    var d, rest := Exec(c, ops[0]), Then(c, ops[0], ops[1..]);
    && At(d, rest, n, handling && rest != []) && SameDebt(c, m, d, n)
    && (ops[0].Test? && c.busy ==> d == c && n == m) && (!ops[0].Test? ==> Nearer(c, m, d, n))
  }

  lemma ClaimMoves(c: Core, ops: seq<Op>, req: Request, handling: bool)
    requires At(c, ops, Claiming(req), handling)
    ensures ops != [] && ContextMoved(c, ops, Claiming(req), handling, Starting(req, 0))
  {
    ClaimKeeps(c, ops, req, handling);
    StartNotEmpty(req);
    hide At, StartOps;
  }

  lemma StartNotEmpty(req: Request)
    ensures StartOps(req) != []
  {
  }

  lemma StartMoves(c: Core, ops: seq<Op>, req: Request, k: nat, handling: bool)
    requires At(c, ops, Starting(req, k), handling)
    ensures ops != [] && k < 14
    ensures ContextMoved(c, ops, Starting(req, k), handling, if k < 13 then Starting(req, k + 1) else Flying(req))
  {
    StartKeeps(c, ops, req, k, handling);
    StartToCome(req, k);
    assert ops[0] == StartOps(req)[k];
    hide At, StartOps, Exec, Then;
  }

  lemma CloseMoves(c: Core, ops: seq<Op>, restart: Option<Request>, k: nat)
    requires At(c, ops, Closing(restart, k), true)
    ensures ops != [] && k < 5
    ensures ContextMoved(c, ops, Closing(restart, k), true, if k < 4 then Closing(restart, k + 1) else Free)
  {
    CloseKeeps(c, ops, restart, k);
    assert ops[1..] != [] <==> k < 4;
    hide At, Exec, Then;
  }

  /** The next operation of the active context moves it to the next mode. */
  lemma ContextKeeps(c: Core, ops: seq<Op>, m: Mode, handling: bool) returns (n: Mode)
    requires At(c, ops, m, handling) && ops != []
    ensures ContextMoved(c, ops, m, handling, n)
  {
    match m
    case Claiming(req) =>
      ClaimMoves(c, ops, req, handling);
      n := Starting(req, 0);
    case Starting(req, k) =>
      StartMoves(c, ops, req, k, handling);
      n := if k < 13 then Starting(req, k + 1) else Flying(req);
    case Closing(restart, k) =>
      CloseMoves(c, ops, restart, k);
      n := if k < 4 then Closing(restart, k + 1) else Free;
    case _ => n := TestKeeps(c, ops, m, handling);
  }

  /** A new start call, or its test. */
  predicate IsCall(s: Sys, step: Step) { step.Call? || (step.Thread? && s.thread != [] && s.thread[0].Test?) }

  lemma StepKeeps(s: Sys, step: Step, m: Mode) returns (n: Mode)
    requires Inv(s, m) && CanStep(s, step)
    ensures Inv(Stepped(s, step), n)
    ensures Owing(m) && !IsCall(s, step) ==> Nearer(s.core, m, Stepped(s, step).core, n)
    ensures Owing(m) && IsCall(s, step) ==> n == m && Stepped(s, step).core == s.core
  {
    n := m;
    match step
    case Call(req) =>
    case Thread => n := ContextKeeps(s.core, s.thread, m, false);
    case Complete => n := Completed;
    case Irq(restart) => n := Closing(restart, 0);
    case Handler => n := ContextKeeps(s.core, s.handler, m, true);
  }

  lemma {:induction false} RunKeeps(s: Sys, run: seq<Step>, m: Mode) returns (n: Mode)
    requires Inv(s, m) && ValidRun(s, run)
    ensures Inv(Ran(s, run), n)
    decreases run
  {
    n := m;
    if run != [] {
      n := StepKeeps(s, run[0], m);
      n := RunKeeps(Stepped(s, run[0]), run[1..], n);
    }
  }

  const RESET := Regs(false, false, false, false, 0, 0, 0, 0, 0, false)

  const INITIAL := Sys(Core(false, RESET, false, None, 0, 0, 0), [], [])

  /** What the active context still has to execute. */
  function Active(s: Sys): seq<Op> { if s.handler == [] then s.thread else s.handler }

  /** Between an accepted start and its release: register writes of the start are still to come, or the transfer runs,
      or its completion is pending and the handler has not released State yet. */
  predicate Claimed(s: Sys) {
    || (Active(s) != [] && Cstart in Active(s) && Active(s)[0] != SetBusy)
    || s.core.flying.Some?
    || (s.core.done && (s.handler == [] || s.handler[0] == Release))
  }

  /** In every interleaving: whenever the hardware carries out a transfer, State is BUSY and every register still holds
      that transfer's set-up, also when it was started inside the completion callback; in every state, State is BUSY
      exactly from an accepted start until the handler releases it; and at most one start is owed a callback, so each
      accepted start gets exactly one. */
  lemma TransfersAreSafe(run: seq<Step>)
    requires ValidRun(INITIAL, run)
    ensures var s := Ran(INITIAL, run);
            && (s.core.busy <==> Claimed(s))
            && s.core.accepted == s.core.released + (if s.core.busy then 1 else 0)
            && s.core.callbacks <= s.core.released <= s.core.accepted <= s.core.callbacks + 1
            && (s.core.flying.Some? ==>
                  s.core.busy && exists req :: s.core.flying == Some(AsFlown(req)) && Loaded(s.core.regs, req))
            && (s.thread == [] && s.handler == [] ==> s.core.released == s.core.callbacks)
  {
    InitialInv();
    var m := RunKeeps(INITIAL, run, Free);
    ModeIsSafe(Ran(INITIAL, run), m);
    hide Inv, Claimed, Loaded;
  }

  lemma ModeIsSafe(s: Sys, m: Mode)
    requires Inv(s, m)
    ensures s.core.busy <==> Claimed(s)
    ensures s.core.accepted == s.core.released + (if s.core.busy then 1 else 0)
    ensures s.core.callbacks <= s.core.released <= s.core.accepted <= s.core.callbacks + 1
    ensures s.core.flying.Some? ==>
              s.core.busy && exists req :: s.core.flying == Some(AsFlown(req)) && Loaded(s.core.regs, req)
    ensures s.thread == [] && s.handler == [] ==> s.core.released == s.core.callbacks
  {
    hide Loaded, ExecAll;
    match m
    case Starting(req, k) =>
      StartToCome(req, k);
      hide StartOps;
    case Closing(restart, k) =>
      assert Cstart !in HandlerOps(restart)[k..];
      hide StartOps;
    case _ =>
  }

  lemma StartToCome(req: Request, k: nat)
    requires k < 14
    ensures |StartOps(req)| == 14 && Cstart in StartOps(req)[k..] && StartOps(req)[k] != SetBusy
            && !StartOps(req)[k].Test?
  {
    assert StartOps(req)[k..][13 - k] == Cstart;
  }

  /** Starts made while State is BUSY, any number of them, change nothing as long as no completion comes in between:
      State, registers, running transfer and counts stay as they are. */
  lemma {:induction false} BusyStartsChangeNothing(s: Sys, run: seq<Step>)
    requires s.core.busy && s.handler == [] && (s.thread == [] || (|s.thread| == 1 && s.thread[0].Test?))
    requires ValidRun(s, run) && forall i :: 0 <= i < |run| ==> run[i].Call? || run[i].Thread?
    ensures Ran(s, run).core == s.core && Ran(s, run).handler == [] && |Ran(s, run).thread| <= 1
    decreases run
  {
    if run != [] {
      assert forall i :: 0 <= i < |run[1..]| ==> run[1..][i] == run[i + 1];
      BusyStartsChangeNothing(Stepped(s, run[0]), run[1..]);
    }
  }

  /** The steps of a run that are not start calls or their tests. */
  function OtherSteps(s: Sys, run: seq<Step>): nat
    requires ValidRun(s, run)
    decreases run
  {
    if run == [] then 0 else (if IsCall(s, run[0]) then 0 else 1) + OtherSteps(Stepped(s, run[0]), run[1..])
  }

  lemma {:induction false} RankFalls(s: Sys, run: seq<Step>, m: Mode)
    requires Inv(s, m) && Owing(m) && ValidRun(s, run)
    ensures s.core.callbacks <= Ran(s, run).core.callbacks
    ensures Ran(s, run).core.callbacks == s.core.callbacks ==> OtherSteps(s, run) <= Rank(m)
    decreases run
  {
    hide Inv, Stepped, CanStep, Rank;
    if run != [] {
      var n := StepKeeps(s, run[0], m);
      var t := Stepped(s, run[0]);
      CallbacksGrow(t, run[1..], n);
      if Owing(n) && t.core.callbacks == s.core.callbacks {
        RankFalls(t, run[1..], n);
      }
    }
  }

  lemma {:induction false} CallbacksGrow(s: Sys, run: seq<Step>, m: Mode)
    requires Inv(s, m) && ValidRun(s, run)
    ensures s.core.callbacks <= Ran(s, run).core.callbacks
    decreases run
  {
    hide Inv;
    if run != [] {
      var n := StepKeeps(s, run[0], m);
      assert s.core.callbacks <= Stepped(s, run[0]).core.callbacks;
      CallbacksGrow(Stepped(s, run[0]), run[1..], n);
    }
  }

  /** An owed callback comes: however many starts are tried meanwhile, a run makes at most 22 other steps before it, and
      there is always such a step to make. */
  lemma CallbackComes(before: seq<Step>, run: seq<Step>)
    requires ValidRun(INITIAL, before) && ValidRun(Ran(INITIAL, before), run)
    requires Ran(INITIAL, before).core.accepted > Ran(INITIAL, before).core.callbacks
    ensures var s, t := Ran(INITIAL, before), Ran(Ran(INITIAL, before), run);
            && (OtherSteps(s, run) > 22 ==> t.core.callbacks > s.core.callbacks)
            && (t.core.callbacks == s.core.callbacks ==> exists step :: CanStep(t, step) && !IsCall(t, step))
  {
    hide Inv;
    var s := Ran(INITIAL, before);
    InitialInv();
    var m := RunKeeps(INITIAL, before, Free);
    OwedMode(s, m);
    RankFalls(s, run, m);
    var n := RunKeeps(s, run, m);
    if Ran(s, run).core.callbacks == s.core.callbacks {
      AcceptedGrows(s, run, m);
      OwedMode(Ran(s, run), n);
      SomethingRuns(Ran(s, run), n);
    }
  }

  lemma InitialInv()
    ensures Inv(INITIAL, Free)
  {
  }

  lemma OwedMode(s: Sys, m: Mode)
    requires Inv(s, m) && s.core.accepted > s.core.callbacks
    ensures Owing(m) && Rank(m) <= 22
  {
  }

  lemma {:induction false} AcceptedGrows(s: Sys, run: seq<Step>, m: Mode)
    requires Inv(s, m) && ValidRun(s, run)
    ensures s.core.accepted <= Ran(s, run).core.accepted
    decreases run
  {
    hide Inv;
    if run != [] {
      var n := StepKeeps(s, run[0], m);
      assert s.core.accepted <= Stepped(s, run[0]).core.accepted;
      AcceptedGrows(Stepped(s, run[0]), run[1..], n);
    }
  }

  lemma SomethingRuns(s: Sys, m: Mode)
    requires Inv(s, m) && Owing(m)
    ensures exists step :: CanStep(s, step) && !IsCall(s, step)
  {
    hide Loaded, ExecAll;
    match m
    case Flying(_) => assert CanStep(s, Complete) && !IsCall(s, Complete);
    case Completed => assert CanStep(s, Irq(None)) && !IsCall(s, Irq(None));
    case Closing(restart, k) => assert CanStep(s, Handler) && !IsCall(s, Handler);
    case Starting(req, k) =>
      StartToCome(req, k);
      if s.handler == [] {
        assert s.thread[0] == StartOps(req)[k] && !s.thread[0].Test?;
        assert CanStep(s, Thread) && !IsCall(s, Thread);
      } else {
        assert CanStep(s, Handler) && !IsCall(s, Handler);
      }
  }

  /** Why the callback comes last: had it come before the clean-up, the clean-up would undo the set-up of the transfer
      it started. */
  lemma EarlyCallbackWouldClobber(c: Core, req: Request)
    ensures var d := ExecAll(c, StartOps(req) + [DisableSpi, ClearRequests]);
            d.flying == Some(AsFlown(req)) && !Loaded(d.regs, req)
  {
    ExecAppend(c, StartOps(req), [DisableSpi, ClearRequests]);
    StartLoads(c, req);
    hide StartOps;
    var d := ExecAll(c, StartOps(req));
    assert [DisableSpi, ClearRequests] == [DisableSpi] + [ClearRequests] && [ClearRequests] == [ClearRequests] + [];
    ExecCons(d, DisableSpi, [ClearRequests]);
    ExecCons(Exec(d, DisableSpi), ClearRequests, []);
  }

  /** What an accepted start leaves. */
  lemma StartExec(c: Core, req: Request)
    ensures ExecAll(c, [SetBusy] + StartOps(req))
         == c.(busy := true, accepted := c.accepted + 1, flying := Some(AsFlown(req)),
               regs := Regs(true, true, true, true, req.tx, req.rx, req.size % MASK, req.size % MASK, req.size % MASK,
                            true))
  {
    ExecCons(c, SetBusy, StartOps(req));
    StartLoads(Exec(c, SetBusy), req);
    hide ExecAll, StartOps;
  }

  /** What the completion handler leaves when its callback starts nothing. */
  lemma HandlerExec(c: Core, restart: Option<Request>)
    ensures ExecAll(c, HandlerOps(restart))
         == c.(busy := false, released := c.released + 1, done := false, callbacks := c.callbacks + 1,
               regs := c.regs.(enabled := false, txRequest := false, rxRequest := false))
  {
    HandlerSplit(restart);
    CloseFour(c);
    hide ExecAll, Exec, HandlerOps;
    var four, last := [Release, DisableSpi, ClearRequests, ClearDone], Callback(restart);
    var d := ExecAll(c, four);
    ExecAppend(c, four, [last]);
    CallbackCounts(d, restart);
  }

  lemma HandlerSplit(restart: Option<Request>)
    ensures HandlerOps(restart) == [Release, DisableSpi, ClearRequests, ClearDone] + [Callback(restart)]
  {
  }

  lemma CallbackCounts(c: Core, restart: Option<Request>)
    ensures ExecAll(c, [Callback(restart)]) == c.(callbacks := c.callbacks + 1)
  {
    assert [Callback(restart)] == [Callback(restart)] + [];
    ExecCons(c, Callback(restart), []);
  }

  lemma CloseFour(c: Core)
    ensures ExecAll(c, [Release, DisableSpi, ClearRequests, ClearDone])
         == c.(busy := false, released := c.released + 1, done := false,
               regs := c.regs.(enabled := false, txRequest := false, rxRequest := false))
  {
    hide ExecAll;
    ExecFour(c, Release, DisableSpi, ClearRequests, ClearDone);
  }

  lemma NothingExecuted(c: Core)
    ensures ExecAll(c, []) == c
  {
  }

  /** One SPI and its RX-DMA channel as the code sees them. */
  class Port {
    var busy: bool
    var regs: Regs
    var done: bool
    var flying: Option<Request>
    var callbacks: nat
    ghost var accepted: nat
    ghost var released: nat
    /** The DMA handle: State is READY, not locked; and the debug counter of completions. */
    var dmaReady: bool
    var dmaLocked: bool
    var dmaCount: nat

    /** The instance as the interleavings above see it. */
    ghost function State(): Core
      reads this
    {
      Core(busy, regs, done, flying, accepted, released, callbacks)
    }

    constructor ()
      ensures State() == INITIAL.core
    {
      busy, regs, done, flying, callbacks, accepted, released := false, RESET, false, None, 0, 0, 0;
      dmaReady, dmaLocked, dmaCount := true, false, 0;
    }

    /** quasar_spi_transfer_full_duplex_non_blocking: exactly the statements the interleavings are made of. */
    method TransferNonBlocking(tx: word, rx: word, size: nat)
      requires size < MASK
      modifies this
      ensures State() == if old(busy) then old(State())
                         else ExecAll(old(State()), [SetBusy] + StartOps(Request(tx, rx, size)))
      ensures !old(busy)
              ==> busy && Loaded(regs, Request(tx, rx, size)) && flying == Some(AsFlown(Request(tx, rx, size)))
      ensures dmaReady == old(dmaReady) && dmaLocked == old(dmaLocked) && dmaCount == old(dmaCount)
    {
      StartExec(State(), Request(tx, rx, size));
      hide ExecAll, StartOps, Exec;
      if busy {
        return;
      }
      busy, accepted := true, accepted + 1;
      regs := regs.(txRequest := false, rxRequest := false);
      regs := regs.(rxChannel := false);
      regs := regs.(rxCount := size);
      regs := regs.(rxTo := rx);
      regs := regs.(rxChannel := true);
      regs := regs.(rxRequest := true);
      regs := regs.(txChannel := false);
      regs := regs.(txCount := size);
      regs := regs.(txFrom := tx);
      regs := regs.(txChannel := true);
      regs := regs.(tsize := size);
      regs := regs.(txRequest := true);
      regs := regs.(enabled := true);
      flying := Some(Request(regs.txFrom, regs.rxTo, regs.tsize)); // CSTART
    }

    /** GPDMA1_Channel2_IRQHandler and GPDMA1_Channel6_IRQHandler, which spin for ever on a DMA error; `restart` is what
        the callback starts, if anything. */
    method CompletionHandler(dmaError: bool, restart: Option<Request>)
      requires !dmaError && (restart.Some? ==> restart.value.size < MASK)
      modifies this
      ensures State() == ExecAll(old(State()), HandlerOps(restart) +
                                 (if restart.Some? then [SetBusy] + StartOps(restart.value) else []))
      ensures restart.Some? ==> busy && Loaded(regs, restart.value) && flying == Some(AsFlown(restart.value))
      ensures dmaReady && !dmaLocked && dmaCount == old(dmaCount) + 1
    {
      ghost var was, more := State(), if restart.Some? then [SetBusy] + StartOps(restart.value) else [];
      HandlerExec(was, restart);
      ExecAppend(was, HandlerOps(restart), more);
      NothingExecuted(ExecAll(was, HandlerOps(restart)));
      hide ExecAll, StartOps, HandlerOps, Exec;
      dmaCount := dmaCount + 1;
      dmaReady := true;
      CleanUp();
      dmaLocked := false;
      callbacks := callbacks + 1;
      if restart.Some? {
        TransferNonBlocking(restart.value.tx, restart.value.rx, restart.value.size);
      }
    }

    /** The release of State and the clean-up of SPI and DMA registers in the handler. */
    method CleanUp()
      modifies this`busy, this`released, this`regs, this`done
      ensures !busy && released == old(released) + 1 && !done
      ensures regs == old(regs).(enabled := false, txRequest := false, rxRequest := false)
    {
      busy, released := false, released + 1;
      regs := regs.(enabled := false);
      regs := regs.(txRequest := false, rxRequest := false);
      done := false;
    }
  }
}
