/**
 * The stack-overflow guard of `call`. The source tests `sp > stack.len()`
 * before writing `stack[sp]`; with sixteen slots the guard lets `sp == 16`
 * through and the write itself is what stops the call. The corrected guard,
 * `sp >= stack.len()`, is the one Semantics.CallSpec uses.
 */
module Findings {
  import opened Wrappers
  import opened Semantics

  /** What a call runs into: nothing, its own overflow guard, or the bounds check of the stack write. */
  datatype CallStop = Proceeds | OverflowGuard | IndexOutOfBounds

  /** The checks of `call` in the order the source makes them. */
  function CallStopAsWritten(sp: nat): (r: CallStop)
    ensures r == Proceeds <==> sp < StackDepth
  {
    if sp > StackDepth then OverflowGuard
    else if sp >= StackDepth then IndexOutOfBounds
    else Proceeds
  }

  /** On a full stack the guard does not fire; the out-of-bounds write stops the call instead. */
  lemma FullStackMissesGuard()
    ensures CallStopAsWritten(StackDepth) == IndexOutOfBounds
  {
  }

  /** No stack pointer a machine can hold ever trips the guard as written. */
  lemma GuardNeverFires(m: Machine)
    requires m.Valid()
    ensures CallStopAsWritten(m.sp) != OverflowGuard
  {
  }

  /** With the corrected guard a full stack is reported as a stack overflow, and only a full stack is. */
  lemma CorrectedGuardReportsOverflow(m: Machine, nnn: bv16)
    requires m.Valid()
    ensures CallSpec(m, nnn) == Err(StackOverflow) <==> m.sp == StackDepth
    ensures CallSpec(m, nnn).Ok? <==> CallStopAsWritten(m.sp) == Proceeds
  {
  }
}
