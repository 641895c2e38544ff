/**
 * The CHIP-8 interpreter as the source writes it: one object whose
 * registers, memory and return-address stack are fixed-size arrays updated
 * in place, with a program counter and a stack pointer. Each method is
 * proved against the matching function of module Semantics.
 */
module Cpu {
  import opened Wrappers
  import opened Opcodes
  import opened Semantics

  class CPU {
    const registers: array<bv8>
    const memory: array<bv8>
    var positionInMemory: nat
    const stack: array<U16>
    var stackPointer: nat

    ghost predicate Valid()
      reads this
    {
      registers.Length == RegisterCount && memory.Length == MemorySize &&
      stack.Length == StackDepth && registers != memory &&
      registers as object != stack as object && memory as object != stack as object &&
      stackPointer <= StackDepth
    }

    /** The whole machine state as a value. */
    ghost function State(): (m: Machine)
      reads this, registers, memory, stack
      requires Valid()
      ensures m.Valid()
    {
      Machine(registers[..], memory[..], positionInMemory, stack[..], stackPointer)
    }

    /** A machine with all registers, memory and stack slots zero. */
    constructor ()
      ensures Valid() && State() == Initial()
      ensures fresh(registers) && fresh(memory) && fresh(stack)
    {
      registers := new bv8[RegisterCount](_ => 0);
      memory := new bv8[MemorySize](_ => 0);
      positionInMemory := 0;
      stack := new U16[StackDepth](_ => 0);
      stackPointer := 0;
      new;
      assert registers[..] == Initial().registers;
      assert memory[..] == Initial().memory;
      assert stack[..] == Initial().stack;
    }

    /** The big-endian word at the program counter; changes nothing. */
    method ReadOpcode() returns (opcode: bv16)
      requires Valid() && positionInMemory + 1 < memory.Length
      ensures Fetch(State()) == Some(opcode)
    {
      var p := positionInMemory;
      var opByte1 := memory[p];
      var opByte2 := memory[p + 1];
      opcode := Join(opByte1, opByte2);
    }

    /** Pushes the return address and jumps; on a full stack reports overflow and changes nothing. */
    method Call(nnn: bv16) returns (fault: Option<Fault>)
      requires Valid()
      modifies this, stack
      ensures Valid()
      ensures CallSpec(old(State()), nnn) == if fault.None? then Ok(State()) else Err(fault.value)
      ensures fault.Some? ==> State() == old(State())
    {
      var sp := stackPointer;
      if sp >= stack.Length {
        return Some(StackOverflow);
      }
      ghost var before := State();
      var returnAddress := ToU16(positionInMemory);
      stack[sp] := returnAddress;
      stackPointer := stackPointer + 1;
      positionInMemory := ToUsize(nnn);
      fault := None;
      assert stack[..] == before.stack[sp := returnAddress];
      assert registers[..] == before.registers;
      assert memory[..] == before.memory;
      assert stackPointer == sp + 1;
      assert State() == before.(stack := before.stack[sp := returnAddress], sp := sp + 1, pc := ToUsize(nnn));
    }

    /** Pops the return address into the program counter; on an empty stack reports underflow. */
    method Ret() returns (fault: Option<Fault>)
      requires Valid()
      modifies this
      ensures Valid()
      ensures RetSpec(old(State())) == if fault.None? then Ok(State()) else Err(fault.value)
      ensures fault.Some? ==> State() == old(State())
    {
      if stackPointer == 0 {
        return Some(StackUnderflow);
      }
      stackPointer := stackPointer - 1;
      var addr := stack[stackPointer];
      positionInMemory := addr;
      fault := None;
    }

    /** Adds register `y` into register `x` with wrap-around and records the carry in register 0xF. */
    method AddXY(x: bv8, y: bv8)
      requires Valid() && x < 16 && y < 16
      modifies registers
      ensures Valid()
      ensures State() == AddXYSpec(old(State()), x as nat, y as nat)
    {
      var arg1 := registers[x as int];
      var arg2 := registers[y as int];
      var (val, overflow) := OverflowingAdd(arg1, arg2);
      registers[x as int] := val;
      if overflow {
        registers[FlagRegister] := 1;
      } else {
        registers[FlagRegister] := 0;
      }
      assert registers[..] == old(registers[..])[x as int := val][FlagRegister := if overflow then 1 else 0];
      assert memory[..] == old(memory[..]);
      assert stack[..] == old(stack[..]);
    }

    /** One fetch-decode-dispatch cycle of the run loop. */
    method Step() returns (status: Status)
      requires Valid()
      modifies this, registers, stack
      ensures Valid()
      ensures After(status, State()) == StepSpec(old(State()))
    {
      if positionInMemory + 1 >= memory.Length {
        return Faulted(OutOfBoundsFetch);
      }
      var opcode := ReadOpcode();
      positionInMemory := positionInMemory + 2;
      var f := Decode(opcode);
      match Dispatch(f)
      case Halt =>
        status := Halted;
      case Return =>
        var fault := Ret();
        status := if fault.Some? then Faulted(fault.value) else Running;
      case Call(nnn) =>
        var fault := Call(nnn);
        status := if fault.Some? then Faulted(fault.value) else Running;
      case AddXY(x, y) =>
        AddXY(x, y);
        status := Running;
      case Unimplemented =>
        status := Faulted(UnimplementedOpcode(opcode));
    }

    /**
     * The run loop, bounded by `fuel` cycles: stops at a halt or a fault,
     * and reports Running if the fuel runs out first.
     */
    method Run(fuel: nat) returns (status: Status)
      requires Valid()
      modifies this, registers, stack
      ensures Valid()
      ensures After(status, State()) == RunSpec(old(State()), fuel)
    {
      var remaining := fuel;
      status := Running;
      while remaining > 0
        invariant Valid()
        invariant RunSpec(State(), remaining) == RunSpec(old(State()), fuel)
        invariant status == Running
        decreases remaining
      {
        ghost var before := State();
        status := Step();
        RunUnfold(before, remaining);
        if !status.Running? {
          return;
        }
        remaining := remaining - 1;
      }
    }
  }
}
