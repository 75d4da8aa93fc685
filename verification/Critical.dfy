/** quasar_it.c: nested critical sections, a counter in RAM guarding the PRIMASK bit.

    Machine is the statement-level model: the running context may be preempted wherever PRIMASK is clear, by a handler
    that may itself use critical sections. */
module Critical {
  /** The counter and the mask that every context shares. Nesting stays below 2^32, so the counter does not wrap. */
  datatype Mask = Mask(nested: nat, primask: bool) {
    function Disabled(first: bool): Mask { if first then this.(primask := true) else this }
    function Counted(): Mask { this.(nested := nested + 1) }
    function Uncounted(): Mask { this.(nested := if nested == 0 then 0xffff_ffff else nested - 1) }
    function Enabled(): Mask { if nested == 0 then this.(primask := false) else this }
  }

  class Interrupts {
    var mask: Mask

    constructor ()
      ensures mask == Mask(0, false)
    {
      mask := Mask(0, false);
    }

    method EnterCritical()
      modifies this
      ensures mask.nested == old(mask.nested) + 1
      ensures mask.primask == (old(mask.primask) || old(mask.nested) == 0)
    {
      var first := mask.nested == 0;
      mask := mask.Disabled(first);
      mask := mask.Counted();
    }

    method ExitCritical()
      modifies this
      ensures mask.nested == if old(mask.nested) == 0 then 0xffff_ffff else old(mask.nested) - 1
      ensures mask.primask == (old(mask.primask) && mask.nested > 0)
    {
      mask := mask.Uncounted();
      mask := mask.Enabled();
    }
  }

  /** Where a context stands: between calls, inside enter_critical (after the test, after the mask), or inside
      exit_critical (after the decrement). */
  datatype Pc = Outside | Tested(first: bool) | Masked | Decremented

  /** A thread or a handler; depth counts the sections it has entered and not yet left. */
  datatype Context = Context(depth: nat, pc: Pc)

  /** The last context is the running one; the others are preempted. */
  datatype Machine = Machine(mask: Mask, stack: seq<Context>)

  datatype Step = Enter | Exit | Continue | Interrupt | Return

  const INITIAL := Machine(Mask(0, false), [Context(0, Outside)])

  function Top(m: Machine): Context
    requires m.stack != []
  {
    m.stack[|m.stack| - 1]
  }

  function WithTop(m: Machine, c: Context, mask: Mask): Machine
    requires m.stack != []
  {
    Machine(mask, m.stack[..|m.stack| - 1] + [c])
  }

  /** Sections are well bracketed within each context, a handler returns with none open, and interrupts arrive
      wherever PRIMASK is clear. */
  predicate CanStep(m: Machine, s: Step) {
    && m.stack != []
    && var top := Top(m);
       match s
       case Enter => top.pc == Outside
       case Exit => top.pc == Outside && top.depth > 0
       case Continue => top.pc != Outside
       case Interrupt => !m.mask.primask
       case Return => |m.stack| > 1 && top == Context(0, Outside)
  }

  function Stepped(m: Machine, s: Step): Machine
    requires CanStep(m, s)
  {
    var top := Top(m);
    match s
    case Enter => WithTop(m, top.(pc := Tested(m.mask.nested == 0)), m.mask)
    case Exit => WithTop(m, Context(top.depth - 1, Decremented), m.mask.Uncounted())
    case Interrupt => m.(stack := m.stack + [Context(0, Outside)])
    case Return => m.(stack := m.stack[..|m.stack| - 1])
    case Continue =>
      match top.pc
      case Tested(first) => WithTop(m, top.(pc := Masked), m.mask.Disabled(first))
      case Masked => WithTop(m, Context(top.depth + 1, Outside), m.mask.Counted())
      case Decremented => WithTop(m, top.(pc := Outside), m.mask.Enabled())
      case Outside => m
  }

  predicate ValidRun(m: Machine, run: seq<Step>)
    decreases run
  {
    run == [] || (CanStep(m, run[0]) && ValidRun(Stepped(m, run[0]), run[1..]))
  }

  function Ran(m: Machine, run: seq<Step>): Machine
    requires ValidRun(m, run)
    decreases run
  {
    if run == [] then m else Ran(Stepped(m, run[0]), run[1..])
  }

  function OpenSections(stack: seq<Context>): nat {
    if stack == [] then 0 else stack[0].depth + OpenSections(stack[1..])
  }

  /** A preempted context holds no section: it stands outside, or after a test that saw zero and before the mask. */
  predicate Preempted(c: Context) { c.depth == 0 && (c.pc == Outside || c.pc == Tested(true)) }

  ghost predicate Inv(m: Machine) {
    && m.stack != []
    && (forall i :: 0 <= i < |m.stack| - 1 ==> Preempted(m.stack[i]))
    && var top := Top(m);
       && m.mask.nested == top.depth
       && (top.pc.Tested? ==> top.pc.first == (m.mask.nested == 0))
       && m.mask.primask == (m.mask.nested > 0 || top.pc == Masked || top.pc == Decremented)
  }

  lemma StepKeepsInv(m: Machine, s: Step)
    requires Inv(m) && CanStep(m, s)
    ensures Inv(Stepped(m, s))
  {
    var t, last := Stepped(m, s), |m.stack| - 1;
    assert forall i :: 0 <= i < |t.stack| && i < last ==> t.stack[i] == m.stack[i];
    match s
    case Interrupt => assert t.stack[last] == Top(m) && Top(t) == Context(0, Outside);
    case Return => assert Top(t) == m.stack[last - 1] && Preempted(m.stack[last - 1]);
    case _ => assert |t.stack| == |m.stack|;
  }

  lemma {:induction false} OnlyTopIsOpen(stack: seq<Context>)
    requires stack != []
    requires forall i :: 0 <= i < |stack| - 1 ==> stack[i].depth == 0
    ensures OpenSections(stack) == stack[|stack| - 1].depth
  {
    if |stack| > 1 {
      OnlyTopIsOpen(stack[1..]);
    } else {
      assert stack[1..] == [];
    }
  }

  lemma {:induction false} RunKeepsInv(m: Machine, run: seq<Step>)
    requires Inv(m) && ValidRun(m, run)
    ensures Inv(Ran(m, run))
    decreases run
  {
    if run != [] {
      StepKeepsInv(m, run[0]);
      RunKeepsInv(Stepped(m, run[0]), run[1..]);
    }
  }

  /** In every reachable state the counter is the number of open sections over all contexts, an open section means
      interrupts are masked, every counter update happens under the mask, and a context that has left its outermost
      section runs unmasked again. */
  lemma NestingIsSafe(run: seq<Step>)
    requires ValidRun(INITIAL, run)
    ensures var m := Ran(INITIAL, run);
            && m.stack != []
            && m.mask.nested == OpenSections(m.stack)
            && (m.mask.nested > 0 ==> m.mask.primask && !CanStep(m, Interrupt))
            && (Top(m).pc == Masked || Top(m).pc == Decremented ==> m.mask.primask)
            && (CanStep(m, Exit) ==> m.mask.nested > 0 && m.mask.primask)
            && (Top(m) == Context(0, Outside) ==> !m.mask.primask)
  {
    RunKeepsInv(INITIAL, run);
    OnlyTopIsOpen(Ran(INITIAL, run).stack);
  }
}
