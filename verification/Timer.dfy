/** quasar_timer_ext.c: changing the period of a running 32-bit timer, and the period arithmetic of its set-up. */
module Timer {
  import opened Words

  const WRAP := 0x1_0000_0000

  /** The counter registers of a running up-counting timer, and how many update events it has produced. */
  datatype Regs = Regs(cnt: word, arr: word, updates: nat)

  /** One timer clock. At ARR the counter restarts with an update event; past ARR it runs on to the 32-bit wrap. An
      auto-reload of 0 stops the counter. */
  function Tick(r: Regs): Regs {
    if r.arr == 0 then r
    else if r.cnt == r.arr then r.(cnt := 0, updates := r.updates + 1)
    else r.(cnt := (r.cnt + 1) % WRAP)
  }

  function Ticks(r: Regs, n: nat): Regs {
    if n == 0 then r else Tick(Ticks(r, n - 1))
  }

  /** The clocks until the next update event. */
  function Distance(r: Regs): nat {
    if r.cnt <= r.arr then r.arr - r.cnt + 1 else WRAP - r.cnt + r.arr + 1
  }

  lemma TickIsCloser(r: Regs)
    requires r.arr != 0
    ensures var t := Tick(r);
            && t.arr == r.arr
            && (Distance(r) > 1 ==> Distance(t) == Distance(r) - 1 && t.updates == r.updates)
            && (Distance(r) == 1 ==> t.cnt == 0 && t.updates == r.updates + 1)
            && Distance(r) >= 1
  {
  }

  /** The next update event comes after exactly Distance(r) clocks, and then every arr + 1 clocks. */
  lemma {:induction false} UpdateAfterDistance(r: Regs, n: nat)
    requires r.arr != 0 && n <= Distance(r)
    ensures var t := Ticks(r, n);
            && t.arr == r.arr && t.updates == r.updates + (if n == Distance(r) then 1 else 0)
            && (if n == Distance(r) then t.cnt == 0 else Distance(t) == Distance(r) - n)
  {
    hide Tick, Distance;
    if n > 0 {
      UpdateAfterDistance(r, n - 1);
      TickIsCloser(Ticks(r, n - 1));
    } else {
      TickIsCloser(r);
    }
  }

  /** Once at or below ARR the counter stays there. */
  lemma {:induction false} StaysInPeriod(r: Regs, n: nat)
    requires r.cnt <= r.arr
    ensures Ticks(r, n).cnt <= r.arr && Ticks(r, n).arr == r.arr
  {
    if n > 0 {
      StaysInPeriod(r, n - 1);
    }
  }

  /** The statements of quasar_timer_set_period after the null check: the ARR write, the comparison, the reset. */
  datatype Pc = WriteArr | Compare | Reset | Returned

  datatype Sys = Sys(r: Regs, pc: Pc)

  /** A period of 0 becomes the largest auto-reload: the subtraction is 32 bits wide. */
  function AutoReload(period: nat): word
    requires period < 0x1_0000
  {
    if period == 0 then WRAP - 1 else period - 1
  }

  function Statement(s: Sys, period: nat): Sys
    requires period < 0x1_0000
  {
    match s.pc
    case WriteArr => Sys(s.r.(arr := AutoReload(period)), Compare)
    case Compare => s.(pc := if s.r.cnt > AutoReload(period) then Reset else Returned)
    case Reset => Sys(s.r.(cnt := 0), Returned)
    case Returned => s
  }

  /** An interleaving of the call with the timer clock: true is a statement, false a clock. */
  function Interleaved(s: Sys, period: nat, schedule: seq<bool>): Sys
    requires period < 0x1_0000
    decreases schedule
  {
    if schedule == [] then s
    else Interleaved(if schedule[0] then Statement(s, period) else s.(r := Tick(s.r)), period, schedule[1..])
  }

  ghost predicate InCall(s: Sys, period: nat)
    requires period < 0x1_0000
  {
    && (s.pc != WriteArr ==> s.r.arr == AutoReload(period))
    && (s.pc == Returned ==> s.r.cnt <= s.r.arr)
  }

  lemma {:induction false} InterleavedInCall(s: Sys, period: nat, schedule: seq<bool>)
    requires period < 0x1_0000 && InCall(s, period)
    ensures InCall(Interleaved(s, period, schedule), period)
    decreases schedule
  {
    if schedule != [] {
      InterleavedInCall(if schedule[0] then Statement(s, period) else s.(r := Tick(s.r)), period, schedule[1..]);
    }
  }

  /** Bounded response: for every previous count and auto-reload, every period and every interleaving of clocks with
      the call, the counter is within the new period when the call has returned and at every later clock, and for every
      period but 1 an update event comes within one period (2^32 clocks for period 0). */
  lemma UpdateWithinOnePeriod(r: Regs, period: nat, schedule: seq<bool>, n: nat)
    requires period < 0x1_0000 && Interleaved(Sys(r, WriteArr), period, schedule).pc == Returned
    ensures var t := Interleaved(Sys(r, WriteArr), period, schedule).r;
            && t.arr == AutoReload(period)
            && Ticks(t, n).cnt <= t.arr
            && (period != 1 ==>
                  && 0 < Distance(t) <= AutoReload(period) + 1
                  && Ticks(t, Distance(t)).updates == t.updates + 1)
  {
    InterleavedInCall(Sys(r, WriteArr), period, schedule);
    var t := Interleaved(Sys(r, WriteArr), period, schedule).r;
    StaysInPeriod(t, n);
    if t.arr != 0 {
      UpdateAfterDistance(t, Distance(t));
    }
  }

  /** With period 1 there is never another update: the bound holds exactly for the other periods. */
  lemma {:induction false} PeriodOneStops(r: Regs, n: nat)
    requires r.arr == 0
    ensures Ticks(r, n) == r
  {
    if n > 0 {
      PeriodOneStops(r, n - 1);
    }
  }

  /** Without the snap-back: a counter that has passed the new auto-reload runs to the 32-bit wrap first, so no update
      comes for WRAP - cnt clocks. */
  lemma WedgeWithoutSnapBack(r: Regs, period: nat, n: nat)
    requires 1 < period < 0x1_0000 && r.cnt > AutoReload(period) && n <= WRAP - r.cnt
    ensures var t := r.(arr := AutoReload(period)); Ticks(t, n).updates == r.updates
  {
    var t := r.(arr := AutoReload(period));
    UpdateAfterDistance(t, n);
  }

  lemma {:induction false} ArrStays(r: Regs, n: nat)
    ensures Ticks(r, n).arr == r.arr
  {
    if n > 0 {
      ArrStays(r, n - 1);
    }
  }

  class Counter {
    var r: Regs

    constructor (r: Regs)
      ensures this.r == r
    {
      this.r := r;
    }

    /** The timer clock runs between two register accesses. */
    method Advance() returns (ghost n: nat)
      modifies this
      ensures r == Ticks(old(r), n) && r.arr == old(r.arr) && (old(r.cnt) <= old(r.arr) ==> r.cnt <= r.arr)
    {
      n := 0;
      var k: nat := *;
      while k > 0
        invariant r == Ticks(old(r), n)
      {
        r, n, k := Tick(r), n + 1, k - 1;
      }
      ArrStays(old(r), n);
      if old(r.cnt) <= old(r.arr) {
        StaysInPeriod(old(r), n);
      }
    }

    /** quasar_timer_set_period on a running timer, which runs n clocks before the comparison and m before the reset: a
        count within the new period is left running, a count past it restarts. */
    method SetPeriod(period: nat) returns (ghost n: nat, ghost m: nat)
      requires period < 0x1_0000
      modifies this
      ensures var seen := Ticks(old(r).(arr := AutoReload(period)), n);
              r == if seen.cnt <= AutoReload(period) then seen else Ticks(seen, m).(cnt := 0)
      ensures r.arr == AutoReload(period) && r.cnt <= r.arr
      ensures Distance(r) <= AutoReload(period) + 1
    {
      var autoReload := AutoReload(period);
      r := r.(arr := autoReload);
      m := 0;
      n := Advance();
      if r.cnt > autoReload {
        m := Advance();
        r := r.(cnt := 0);
      }
    }
  }

  // Starting the timer, and the interrupt that consumes its updates.

  /** The timer with its interrupt: counter enable, update flag and enable, the statements of quasar_timer_start already
      executed, and how often the counter itself has wrapped since the forced update. */
  datatype Starting = Starting(r: Regs, cen: bool, uif: bool, uie: bool, pc: nat, wraps: nat)

  function StartStatement(s: Starting): Starting {
    match s.pc
    case 0 => s.(cen := true, pc := 1)
    case 1 => s.(r := s.r.(cnt := 0), uif := true, pc := 2, wraps := 0) // EGR.UG
    case 2 => s.(uif := false, pc := 3)
    case 3 => s.(uie := true, pc := 4)
    case _ => s
  }

  function StartTick(s: Starting): Starting {
    var t := Tick(s.r);
    if !s.cen then s
    else if t.updates > s.r.updates then s.(r := t, uif := true, wraps := s.wraps + 1)
    else s.(r := t)
  }

  /** true is a statement of the call, false a clock. */
  function StartInterleaved(s: Starting, schedule: seq<bool>): Starting
    decreases schedule
  {
    if schedule == [] then s
    else StartInterleaved(if schedule[0] then StartStatement(s) else StartTick(s), schedule[1..])
  }

  ghost predicate InStart(s: Starting) {
    && s.pc <= 4 && (s.uie <==> s.pc == 4)
    && (s.pc > 0 ==> s.cen)
    && (s.pc > 1 ==> s.r.cnt <= s.r.arr)
    && (s.pc > 2 && s.uif ==> s.wraps > 0)
  }

  lemma {:induction false} StartKeeps(s: Starting, schedule: seq<bool>)
    requires InStart(s)
    ensures var t := StartInterleaved(s, schedule); InStart(t) && t.r.arr == s.r.arr
    decreases schedule
  {
    if schedule != [] {
      StartKeeps(if schedule[0] then StartStatement(s) else StartTick(s), schedule[1..]);
    }
  }

  /** In every interleaving of quasar_timer_start with the clock, from any counter value: no interrupt can be taken
      before the call returns; the forced update causes none, so a pending one means that the counter has run a whole
      period; and the next update comes within one period. */
  lemma StartIsClean(s: Starting, schedule: seq<bool>, n: nat)
    requires s.pc == 0 && !s.uie && s.r.arr != 0 && n <= |schedule|
    requires StartInterleaved(s, schedule).pc == 4
    ensures var t := StartInterleaved(s, schedule);
            && t.cen && t.uie && t.r.arr == s.r.arr && (t.uif ==> t.wraps > 0)
            && Distance(t.r) <= t.r.arr + 1 && Ticks(t.r, Distance(t.r)).updates == t.r.updates + 1
    ensures var m := StartInterleaved(s, schedule[..n]); m.pc < 4 ==> !m.uie
  {
    StartKeeps(s, schedule);
    StartKeeps(s, schedule[..n]);
    var r := StartInterleaved(s, schedule).r;
    UpdateAfterDistance(r, Distance(r));
  }

  /** TIM4_IRQHandler statement by statement; `merged` counts updates that found the flag already set. */
  datatype Handling = Waiting | Tested | Cleared

  datatype Irq = Irq(uif: bool, at: Handling, updates: nat, callbacks: nat, merged: nat)

  datatype IrqStep = Update | Enter | Clear | CallBack

  predicate CanStep(q: Irq, step: IrqStep) {
    match step
    case Update => true
    case Enter => q.uif && q.at == Waiting
    case Clear => q.at == Tested
    case CallBack => q.at == Cleared
  }

  function Stepped(q: Irq, step: IrqStep): Irq {
    match step
    case Update => q.(uif := true, updates := q.updates + 1, merged := q.merged + if q.uif then 1 else 0)
    case Enter => q.(at := Tested)
    case Clear => q.(at := Cleared, uif := false)
    case CallBack => q.(at := Waiting, callbacks := q.callbacks + 1)
  }

  predicate ValidRun(q: Irq, run: seq<IrqStep>)
    decreases run
  {
    run == [] || (CanStep(q, run[0]) && ValidRun(Stepped(q, run[0]), run[1..]))
  }

  function Ran(q: Irq, run: seq<IrqStep>): Irq
    decreases run
  {
    if run == [] then q else Ran(Stepped(q, run[0]), run[1..])
  }

  /** Updates seen by the handler and not yet called back. */
  function Owed(q: Irq): nat { (if q.uif then 1 else 0) + if q.at == Cleared then 1 else 0 }

  /** In every interleaving of updates with the handler, each update is called back exactly once, is still owed, or
      arrived while the flag of an earlier one was still set; with no such arrival nothing is dropped. */
  lemma {:induction false} UpdatesAreCalledBack(q: Irq, run: seq<IrqStep>)
    requires ValidRun(q, run) && (q.at == Tested ==> q.uif) && q.updates == q.callbacks + q.merged + Owed(q)
    ensures var t := Ran(q, run);
            (t.at == Tested ==> t.uif) && t.updates == t.callbacks + t.merged + Owed(t)
    decreases run
  {
    if run != [] {
      UpdatesAreCalledBack(Stepped(q, run[0]), run[1..]);
    }
  }

  // Period arithmetic.

  datatype TimeBase = Millisecond | Microsecond | Other

  function Divider(base: TimeBase): nat { if base == Millisecond then 10000 else 1000000 }

  function Multiplier(base: TimeBase): nat { if base == Millisecond then 10 else 1 }

  type uint16 = x: int | 0 <= x < 0x1_0000

  /** The results keep 16 bits; an unknown time base leaves both as they were, 0. */
  function MaxCountAndPrescaler(clock: word, base: TimeBase, timePeriod: uint16): (uint16, uint16) {
    if base == Other then (0, 0)
    else ((timePeriod * Multiplier(base) - 1) % 0x1_0000, (clock / Divider(base) - 1) % 0x1_0000)
  }

  /** Both results are exact, nothing cut off, exactly when they fit 16 bits. */
  lemma NothingTruncatesIff(clock: word, base: TimeBase, timePeriod: uint16)
    requires base != Other
    ensures var (maxCount, prescaler) := MaxCountAndPrescaler(clock, base, timePeriod);
            && (maxCount == timePeriod * Multiplier(base) - 1 <==> 1 <= timePeriod * Multiplier(base) <= 0x1_0000)
            && (prescaler == clock / Divider(base) - 1 <==> Divider(base) <= clock && clock / Divider(base) <= 0x1_0000)
  {
  }

  /** When nothing truncates, an update takes (prescaler + 1) * (maxCount + 1) clocks. With T the requested time, in
      units of 1/divider seconds, that is never longer than T; it falls short by less than one part in
      clock/divider; and it is exact when the divider divides the clock. */
  lemma PeriodNeverTooLong(clock: word, base: TimeBase, timePeriod: uint16)
    requires base != Other && Divider(base) <= clock && clock / Divider(base) <= 0x1_0000
    requires 1 <= timePeriod * Multiplier(base) <= 0x1_0000
    ensures var (maxCount, prescaler) := MaxCountAndPrescaler(clock, base, timePeriod);
            var cycles, wanted := (prescaler + 1) * (maxCount + 1), timePeriod * Multiplier(base);
            && cycles * Divider(base) <= wanted * clock
            && (wanted * clock - cycles * Divider(base)) < wanted * Divider(base)
            && (clock % Divider(base) == 0 ==> cycles * Divider(base) == wanted * clock)
  {
    var d, wanted := Divider(base), timePeriod * Multiplier(base);
    var q := clock / d;
    var rest := clock % d;
    NothingTruncatesIff(clock, base, timePeriod);
    Shortfall(wanted, clock, d, q, rest);
  }

  lemma Shortfall(wanted: nat, clock: nat, d: nat, q: nat, rest: nat)
    requires wanted > 0 && clock == d * q + rest && rest < d
    ensures wanted * clock - (q * wanted) * d == wanted * rest && 0 <= wanted * rest < wanted * d
  {
    assert wanted * (d * q) == (q * wanted) * d;
    assert wanted * clock == wanted * (d * q) + wanted * rest;
    assert wanted * (d - rest) > 0;
  }
}
