/**
 * The CHIP-8 machine as a value and the effect of each instruction on it.
 * These functions are the specification that the imperative interpreter in
 * module Cpu is proved against.
 */
module Semantics {
  import opened Wrappers
  import opened Opcodes

  /** An unsigned 16-bit value, as kept on the return-address stack. */
  type U16 = n: int | 0 <= n < 0x10000

  const RegisterCount := 16
  const MemorySize := 0x1000
  const StackDepth := 16
  /** Register 0xF doubles as the carry flag. */
  const FlagRegister := 0xF

  /** Why a run stops without reaching a halt instruction. */
  datatype Fault =
    | OutOfBoundsFetch
    | StackOverflow
    | StackUnderflow
    | UnimplementedOpcode(opcode: bv16)

  /** The state of the run loop: still going, halted normally, or stopped by a fault. */
  datatype Status = Running | Halted | Faulted(reason: Fault)

  /** Registers, memory, program counter and return-address stack with its pointer. */
  datatype Machine = Machine(registers: seq<bv8>, memory: seq<bv8>, pc: nat, stack: seq<U16>, sp: nat)
  {
    predicate Valid()
    {
      |registers| == RegisterCount && |memory| == MemorySize && |stack| == StackDepth && sp <= StackDepth
    }

    /** The return addresses currently pushed, oldest first. */
    function Frames(): seq<U16>
      requires Valid()
    {
      stack[..sp]
    }
  }

  /** A status together with the machine it leaves behind. */
  datatype After = After(status: Status, machine: Machine)

  /** The freshly created machine: everything zero. */
  function Initial(): (m: Machine)
    ensures m.Valid() && m.pc == 0 && m.Frames() == []
    ensures forall i :: 0 <= i < RegisterCount ==> m.registers[i] == 0
    ensures forall a :: 0 <= a < MemorySize ==> m.memory[a] == 0
    ensures forall k :: 0 <= k < StackDepth ==> m.stack[k] == 0
  {
    Machine(seq(RegisterCount, _ => 0), seq(MemorySize, _ => 0), 0, seq(StackDepth, _ => 0), 0)
  }

  /** The instruction word at the program counter, if both of its bytes lie in memory. */
  function Fetch(m: Machine): (r: Option<bv16>)
    requires m.Valid()
    ensures r.Some? <==> m.pc + 1 < MemorySize
    ensures r.Some? ==> r.value == (m.memory[m.pc] as bv16) * 256 + (m.memory[m.pc + 1] as bv16)
  {
    if m.pc + 1 < |m.memory| then Some(Join(m.memory[m.pc], m.memory[m.pc + 1])) else None
  }

  /** An address narrowed to 16 bits, as a cast to an unsigned 16-bit integer does. */
  function ToU16(n: nat): (r: U16)
    ensures n < 0x10000 ==> r == n
    ensures (n - r) % 0x10000 == 0
  {
    n % 0x10000
  }

  /** A 16-bit value widened to an address. */
  function ToUsize(v: bv16): (r: nat)
    ensures r < 0x10000 && ToU16(r) == v as int
  {
    v as nat
  }

  /** Pushes the program counter, truncated to 16 bits, and jumps to `nnn`. */
  function CallSpec(m: Machine, nnn: bv16): (r: Result<Machine, Fault>)
    requires m.Valid()
    ensures r.Err? <==> m.sp == StackDepth
    ensures r.Err? ==> r.error == StackOverflow
    ensures r.Ok? ==> r.value.Valid()
  {
    if m.sp >= |m.stack| then Err(StackOverflow)
    else Ok(m.(stack := m.stack[m.sp := ToU16(m.pc)], sp := m.sp + 1, pc := ToUsize(nnn)))
  }

  /**
   * A successful call writes the truncated program counter into the slot at
   * the stack pointer and bumps the pointer, so exactly that address joins the
   * live part of the stack; it jumps to `nnn` and leaves registers and memory alone.
   */
  lemma CallPushes(m: Machine, nnn: bv16)
    requires m.Valid() && m.sp < StackDepth
    ensures CallSpec(m, nnn).Ok?
    ensures var m' := CallSpec(m, nnn).value;
      m'.Frames() == m.Frames() + [ToU16(m.pc)] &&
      m'.stack == m.stack[m.sp := ToU16(m.pc)] && m'.sp == m.sp + 1 &&
      m'.pc == ToUsize(nnn) && m'.registers == m.registers && m'.memory == m.memory
  {
    var m' := CallSpec(m, nnn).value;
    assert m'.Frames() == m.Frames() + [ToU16(m.pc)];
  }

  /** Pops the most recent return address into the program counter. */
  function RetSpec(m: Machine): (r: Result<Machine, Fault>)
    requires m.Valid()
    ensures r.Err? <==> m.sp == 0
    ensures r.Err? ==> r.error == StackUnderflow
    ensures r.Ok? ==> r.value.Valid()
  {
    if m.sp == 0 then Err(StackUnderflow)
    else Ok(m.(sp := m.sp - 1, pc := m.stack[m.sp - 1]))
  }

  /**
   * A successful return removes the newest live entry, jumps to it, and
   * leaves registers, memory and the stack slots themselves alone.
   */
  lemma RetPops(m: Machine)
    requires m.Valid() && m.sp > 0
    ensures RetSpec(m).Ok?
    ensures var m' := RetSpec(m).value;
      m'.Frames() + [m.Frames()[m.sp - 1]] == m.Frames() &&
      m'.pc == m.Frames()[m.sp - 1] &&
      m'.registers == m.registers && m'.memory == m.memory && m'.stack == m.stack
  {
    var m' := RetSpec(m).value;
    assert m'.Frames() + [m.Frames()[m.sp - 1]] == m.Frames();
  }

  /**
   * Eight-bit addition returning the wrapped sum and whether it overflowed.
   * The true sum is formed in 16 bits, where it cannot overflow.
   */
  function OverflowingAdd(a: bv8, b: bv8): (r: (bv8, bool))
    ensures var sum := (a as bv16) + (b as bv16);
      r.0 as bv16 == sum % 256 && (r.1 <==> sum > 255)
  {
    (a + b, a + b < a)
  }

  /**
   * Register `x` receives the wrapped sum of registers `x` and `y`; then the
   * flag register is set to the carry, overwriting the sum when `x` is 0xF.
   */
  function AddXYSpec(m: Machine, x: nat, y: nat): (r: Machine)
    requires m.Valid() && x < RegisterCount && y < RegisterCount
    ensures r.Valid()
    ensures var sum := (m.registers[x] as bv16) + (m.registers[y] as bv16);
      r.registers[FlagRegister] == (if sum > 255 then 1 else 0) &&
      (x != FlagRegister ==> r.registers[x] as bv16 == sum % 256)
    ensures forall i :: 0 <= i < RegisterCount && i != x && i != FlagRegister ==>
      r.registers[i] == m.registers[i]
    ensures r.(registers := m.registers) == m
  {
    var (val, overflow) := OverflowingAdd(m.registers[x], m.registers[y]);
    m.(registers := m.registers[x := val][FlagRegister := if overflow then 1 else 0])
  }

  /**
   * One cycle: fetch, advance the program counter by two, decode, dispatch.
   * A fault leaves the machine as it was when the fault arose.
   */
  function StepSpec(m: Machine): (r: After)
    requires m.Valid()
    ensures r.machine.Valid() && r.machine.memory == m.memory
  {
    match Fetch(m)
    case None => After(Faulted(OutOfBoundsFetch), m)
    case Some(opcode) =>
      var m1 := m.(pc := m.pc + 2);
      match Dispatch(Decode(opcode))
      case Halt => After(Halted, m1)
      case Return =>
        (match RetSpec(m1)
         case Ok(m2) => After(Running, m2)
         case Err(e) => After(Faulted(e), m1))
      case Call(nnn) =>
        (match CallSpec(m1, nnn)
         case Ok(m2) => After(Running, m2)
         case Err(e) => After(Faulted(e), m1))
      case AddXY(x, y) => After(Running, AddXYSpec(m1, x as nat, y as nat))
      case Unimplemented => After(Faulted(UnimplementedOpcode(opcode)), m1)
  }

  /** At most `fuel` cycles, stopping at the first cycle that halts or faults. */
  function RunSpec(m: Machine, fuel: nat): (r: After)
    requires m.Valid()
    ensures r.machine.Valid() && r.machine.memory == m.memory
    decreases fuel
  {
    if fuel == 0 then After(Running, m)
    else
      var s := StepSpec(m);
      if s.status.Running? then RunSpec(s.machine, fuel - 1) else s
  }

  /** One cycle of a run with fuel left. */
  lemma RunUnfold(m: Machine, fuel: nat)
    requires m.Valid() && fuel > 0
    ensures RunSpec(m, fuel) ==
      if StepSpec(m).status.Running? then RunSpec(StepSpec(m).machine, fuel - 1) else StepSpec(m)
  {
  }
}
