/**
 * Properties of the interpreter's semantics that relate several cycles or
 * several instructions: call and return undo each other, what each fault
 * means, how runs compose, and the sample program that calls a subroutine
 * twice.
 */
module Properties {
  import opened Wrappers
  import opened Opcodes
  import opened Semantics

  /**
   * A call followed by a return gives back the program counter and the
   * stack pointer the call started from, and the same live return addresses.
   */
  lemma CallThenRet(m: Machine, nnn: bv16)
    requires m.Valid() && m.sp < StackDepth && m.pc < 0x10000
    ensures CallSpec(m, nnn).Ok?
    ensures RetSpec(CallSpec(m, nnn).value).Ok?
    ensures var m' := RetSpec(CallSpec(m, nnn).value).value;
      m'.pc == m.pc && m'.sp == m.sp && m'.Frames() == m.Frames() &&
      m'.registers == m.registers && m'.memory == m.memory
  {
    CallPushes(m, nnn);
    var m1 := CallSpec(m, nnn).value;
    RetPops(m1);
    var m2 := RetSpec(m1).value;
    assert m2.Frames() + [ToU16(m.pc)] == m.Frames() + [ToU16(m.pc)];
  }

  /** `0x2nnn` pushes the advanced program counter and jumps to `nnn`. */
  lemma StepCall(m: Machine, w: bv16)
    requires m.Valid() && m.sp < StackDepth && Fetch(m) == Some(w) && w & 0xF000 == 0x2000
    ensures CallSpec(m.(pc := m.pc + 2), w & 0x0FFF).Ok?
    ensures StepSpec(m) == After(Running, CallSpec(m.(pc := m.pc + 2), w & 0x0FFF).value)
  {
    DispatchWord(w);
  }

  /** `0x00EE` on a non-empty stack pops into the program counter. */
  lemma StepRet(m: Machine)
    requires m.Valid() && m.sp > 0 && Fetch(m) == Some(0x00EE)
    ensures RetSpec(m.(pc := m.pc + 2)).Ok?
    ensures StepSpec(m) == After(Running, RetSpec(m.(pc := m.pc + 2)).value)
  {
    DispatchWord(0x00EE);
  }

  /**
   * Executing a CALL whose target holds a RET brings control back to the
   * instruction right after the CALL, with the stack as it was.
   */
  lemma StepCallThenRet(m: Machine, w: bv16)
    requires m.Valid() && m.sp < StackDepth
    requires Fetch(m) == Some(w) && w & 0xF000 == 0x2000
    requires ToUsize(w & 0x0FFF) + 1 < MemorySize
    requires m.memory[ToUsize(w & 0x0FFF)] == 0x00 && m.memory[ToUsize(w & 0x0FFF) + 1] == 0xEE
    ensures StepSpec(m).status == Running
    ensures var s := StepSpec(StepSpec(m).machine);
      s.status == Running && s.machine.pc == m.pc + 2 && s.machine.sp == m.sp &&
      s.machine.Frames() == m.Frames() && s.machine.registers == m.registers
  {
    var m1 := m.(pc := m.pc + 2);
    StepCall(m, w);
    CallPushes(m1, w & 0x0FFF);
    var m2 := StepSpec(m).machine;
    assert Fetch(m2) == Some(0x00EE) by {
      assert Join(0x00, 0xEE) == 0x00EE;
    }
    StepRet(m2);
    var m3 := m2.(pc := m2.pc + 2);
    RetPops(m3);
    assert m3.Frames() == m1.Frames() + [ToU16(m1.pc)];
    assert ToU16(m1.pc) as int == m.pc + 2;
  }

  /** The word 0x0000 halts after advancing the program counter and changes nothing else. */
  lemma StepHalt(m: Machine)
    requires m.Valid() && Fetch(m) == Some(0x0000)
    ensures StepSpec(m) == After(Halted, m.(pc := m.pc + 2))
  {
    DispatchWord(0x0000);
  }

  /** A fetch faults exactly when the second byte of the word would lie outside memory. */
  lemma StepOutOfBounds(m: Machine)
    requires m.Valid()
    ensures StepSpec(m).status == Faulted(OutOfBoundsFetch) <==> m.pc + 1 >= MemorySize
    ensures m.pc + 1 >= MemorySize ==> StepSpec(m) == After(Faulted(OutOfBoundsFetch), m)
  {
    if m.pc + 1 < MemorySize {
      var w := Fetch(m).value;
      DispatchWord(w);
    }
  }

  /** RET on an empty stack is a stack-underflow fault. */
  lemma StepUnderflow(m: Machine)
    requires m.Valid() && m.sp == 0 && Fetch(m) == Some(0x00EE)
    ensures StepSpec(m) == After(Faulted(StackUnderflow), m.(pc := m.pc + 2))
  {
    DispatchWord(0x00EE);
  }

  /** CALL with all sixteen stack slots in use is a stack-overflow fault. */
  lemma StepOverflow(m: Machine, w: bv16)
    requires m.Valid() && m.sp == StackDepth && Fetch(m) == Some(w) && w & 0xF000 == 0x2000
    ensures StepSpec(m) == After(Faulted(StackOverflow), m.(pc := m.pc + 2))
  {
    DispatchWord(w);
  }

  /** A word outside the four patterns is an unimplemented-opcode fault naming that word. */
  lemma StepUnimplemented(m: Machine, w: bv16)
    requires m.Valid() && Fetch(m) == Some(w)
    requires w != 0x0000 && w != 0x00EE && w & 0xF000 != 0x2000 && w & 0xF00F != 0x8004
    ensures StepSpec(m) == After(Faulted(UnimplementedOpcode(w)), m.(pc := m.pc + 2))
  {
    DispatchWord(w);
  }

  /** `0x8xy4` adds register y into register x after advancing the program counter. */
  lemma StepAdd(m: Machine, w: bv16)
    requires m.Valid() && Fetch(m) == Some(w) && w & 0xF00F == 0x8004
    ensures var x, y := Decode(w).x, Decode(w).y;
      StepSpec(m) == After(Running, AddXYSpec(m.(pc := m.pc + 2), x as nat, y as nat))
  {
    DispatchWord(w);
  }

  /** The two additions worked out by hand: 200 + 200 carries, 5 + 10 does not. */
  lemma AddExamples(m: Machine)
    requires m.Valid()
    ensures var r := AddXYSpec(m.(registers := m.registers[0 := 200][1 := 200]), 0, 1);
      r.registers[0] == 144 && r.registers[FlagRegister] == 1
    ensures var r := AddXYSpec(m.(registers := m.registers[0 := 5][1 := 10]), 0, 1);
      r.registers[0] == 15 && r.registers[FlagRegister] == 0
  {
  }

  /** Outside the flag register, adding y into x leaves the same sum as adding x into y. */
  lemma AddCommutes(m: Machine, x: nat, y: nat)
    requires m.Valid() && x < FlagRegister && y < FlagRegister
    ensures AddXYSpec(m, x, y).registers[x] == AddXYSpec(m, y, x).registers[y]
  {
  }

  /** For any two registers, adding y into x sets the same carry as adding x into y. */
  lemma AddCarryCommutes(m: Machine, x: nat, y: nat)
    requires m.Valid() && x < RegisterCount && y < RegisterCount
    ensures AddXYSpec(m, x, y).registers[FlagRegister] == AddXYSpec(m, y, x).registers[FlagRegister]
  {
  }

  /**
   * Running for `a + b` cycles is running for `a` cycles and then, if the
   * machine is still running, for `b` more.
   */
  lemma {:induction false} RunSplit(m: Machine, a: nat, b: nat)
    requires m.Valid()
    ensures RunSpec(m, a + b) ==
      if RunSpec(m, a).status.Running? then RunSpec(RunSpec(m, a).machine, b) else RunSpec(m, a)
    decreases a
  {
    if a > 0 {
      var s := StepSpec(m);
      RunUnfold(m, a);
      RunUnfold(m, a + b);
      if s.status.Running? {
        RunSplit(s.machine, a - 1, b);
        assert RunSpec(m, a) == RunSpec(s.machine, a - 1);
        assert RunSpec(m, a + b) == RunSpec(s.machine, (a - 1) + b);
      } else {
        assert RunSpec(m, a) == s == RunSpec(m, a + b);
      }
    }
  }

  /**
   * A run that halted or faulted stopped at the cycle after some `k` cycles
   * that all kept running, and that cycle's outcome is the run's outcome.
   */
  lemma {:induction false} RunStopsAtFirstStop(m: Machine, fuel: nat)
    requires m.Valid() && !RunSpec(m, fuel).status.Running?
    ensures exists k :: (0 <= k < fuel && RunSpec(m, k).status.Running? &&
                         StepSpec(RunSpec(m, k).machine) == RunSpec(m, fuel))
    decreases fuel
  {
    RunUnfold(m, fuel);
    var s := StepSpec(m);
    if s.status.Running? {
      RunStopsAtFirstStop(s.machine, fuel - 1);
      var k :| 0 <= k < fuel - 1 && RunSpec(s.machine, k).status.Running? &&
        StepSpec(RunSpec(s.machine, k).machine) == RunSpec(s.machine, fuel - 1);
      RunUnfold(m, k + 1);
      assert RunSpec(m, k + 1) == RunSpec(s.machine, k);
    } else {
      assert RunSpec(m, 0) == After(Running, m);
    }
  }

  /** Once a run has halted or faulted, more fuel changes nothing. */
  lemma RunFuelMonotone(m: Machine, fuel: nat, more: nat)
    requires m.Valid() && !RunSpec(m, fuel).status.Running?
    ensures RunSpec(m, fuel + more) == RunSpec(m, fuel)
  {
    RunSplit(m, fuel, more);
  }

  /**
   * The sample program: at 0x000 `CALL 0x100; CALL 0x100; HALT`, at 0x100
   * `ADD V0, V1; ADD V0, V1; RET`, with V0 = 5 and V1 = 10.
   */
  function SampleMachine(): (m: Machine)
    ensures m.Valid() && m.pc == 0 && m.sp == 0
  {
    var m0 := Initial();
    m0.(registers := m0.registers[0 := 5][1 := 10],
        memory := m0.memory[0x000 := 0x21][0x001 := 0x00][0x002 := 0x21][0x003 := 0x00]
                           [0x004 := 0x00][0x005 := 0x00]
                           [0x100 := 0x80][0x101 := 0x14][0x102 := 0x80][0x103 := 0x14]
                           [0x104 := 0x00][0x105 := 0xEE])
  }

  /** The instruction words of the sample program, read back from its memory. */
  lemma SampleWords(m: Machine)
    requires m.Valid() && m.memory == SampleMachine().memory
    ensures Fetch(m.(pc := 0x000)) == Some(0x2100) && Fetch(m.(pc := 0x002)) == Some(0x2100)
    ensures Fetch(m.(pc := 0x004)) == Some(0x0000)
    ensures Fetch(m.(pc := 0x100)) == Some(0x8014) && Fetch(m.(pc := 0x102)) == Some(0x8014)
    ensures Fetch(m.(pc := 0x104)) == Some(0x00EE)
  {
    assert Join(0x21, 0x00) == 0x2100 && Join(0x00, 0x00) == 0x0000;
    assert Join(0x80, 0x14) == 0x8014 && Join(0x00, 0xEE) == 0x00EE;
  }

  /** `ADD V0, V1` without a carry: V0 grows by V1, nothing else but the program counter moves. */
  lemma AddV1IntoV0(m: Machine)
    requires m.Valid() && Fetch(m) == Some(0x8014)
    requires (m.registers[0] as bv16) + (m.registers[1] as bv16) < 256
    ensures var s := StepSpec(m);
      s.status == Running && s.machine.pc == m.pc + 2 && s.machine.sp == m.sp &&
      s.machine.stack == m.stack && s.machine.memory == m.memory &&
      s.machine.registers[1] == m.registers[1] &&
      s.machine.registers[0] == m.registers[0] + m.registers[1]
  {
    StepAdd(m, 0x8014);
    assert Decode(0x8014).x == 0 && Decode(0x8014).y == 1;
    var m1 := m.(pc := m.pc + 2);
    var r := AddXYSpec(m1, 0, 1);
    assert StepSpec(m) == After(Running, r);
    assert r.(registers := m1.registers) == m1;
  }

  /** Either `ADD V0, V1` of the subroutine adds 10 to V0 and moves to the next word. */
  lemma SampleAdd(m: Machine)
    requires m.Valid() && m.memory == SampleMachine().memory
    requires m.pc == 0x100 || m.pc == 0x102
    requires m.registers[1] == 10 && m.registers[0] < 246
    ensures var s := StepSpec(m);
      s.status == Running && s.machine.pc == m.pc + 2 && s.machine.sp == m.sp &&
      s.machine.stack == m.stack && s.machine.memory == m.memory &&
      s.machine.registers[1] == 10 && s.machine.registers[0] == m.registers[0] + 10
  {
    SampleWords(m);
    assert m.(pc := m.pc) == m;
    AddV1IntoV0(m);
  }

  /** The two additions at the head of the subroutine add 20 to V0 and stop at its RET. */
  lemma SubroutineAdds(m: Machine)
    requires m.Valid() && m.memory == SampleMachine().memory && m.pc == 0x100
    requires m.registers[1] == 10 && m.registers[0] < 236
    ensures var s1 := StepSpec(m); var s2 := StepSpec(s1.machine);
      s1.status == Running && s2.status == Running &&
      s2.machine.pc == 0x104 && s2.machine.sp == m.sp && s2.machine.stack == m.stack &&
      s2.machine.memory == m.memory && s2.machine.registers[1] == 10 &&
      s2.machine.registers[0] == m.registers[0] + 20
  {
    SampleAdd(m);
    SampleAdd(StepSpec(m).machine);
  }

  /** One pass through the subroutine adds V1 into V0 twice and returns to `back`. */
  lemma SubroutinePass(m: Machine, back: U16)
    requires m.Valid() && m.memory == SampleMachine().memory
    requires m.pc == 0x100 && m.sp == 1 && m.stack[0] == back
    requires m.registers[1] == 10 && m.registers[0] < 236
    ensures var r := RunSpec(m, 3);
      r.status == Running && r.machine.pc == back && r.machine.sp == 0 &&
      r.machine.memory == m.memory && r.machine.registers[1] == 10 &&
      r.machine.registers[0] == m.registers[0] + 20
  {
    SubroutineAdds(m);
    var m1 := StepSpec(m).machine;
    var m2 := StepSpec(m1).machine;
    SampleWords(m2);
    assert m2.(pc := 0x104) == m2;
    StepRet(m2);
    RunUnfold(m, 3);
    RunUnfold(m1, 2);
    RunUnfold(m2, 1);
  }

  /** `CALL 0x100` at `m.pc` pushes the address after it and enters the subroutine. */
  lemma EnterSubroutine(m: Machine)
    requires m.Valid() && m.memory == SampleMachine().memory && m.sp == 0
    requires m.pc == 0x000 || m.pc == 0x002
    ensures var s := StepSpec(m);
      s.status == Running && s.machine.pc == 0x100 && s.machine.sp == 1 &&
      s.machine.stack[0] == m.pc + 2 && s.machine.registers == m.registers &&
      s.machine.memory == m.memory
  {
    SampleWords(m);
    assert m.(pc := m.pc) == m;
    StepCall(m, 0x2100);
    CallPushes(m.(pc := m.pc + 2), 0x0100);
  }

  /** The sample program halts within nine cycles with V0 = 5 + 4 * 10 = 45. */
  lemma SampleProgramHalts()
    ensures RunSpec(SampleMachine(), 9).status == Halted
    ensures RunSpec(SampleMachine(), 9).machine.registers[0] == 45
  {
    var m0 := SampleMachine();
    assert m0.registers[0] == 5 && m0.registers[1] == 10;
    EnterSubroutine(m0);
    var m1 := StepSpec(m0).machine;
    SubroutinePass(m1, 2);
    var r1 := RunSpec(m1, 3).machine;
    EnterSubroutine(r1);
    var m2 := StepSpec(r1).machine;
    SubroutinePass(m2, 4);
    var r2 := RunSpec(m2, 3).machine;
    SampleWords(r2);
    assert r2.(pc := 0x004) == r2;
    StepHalt(r2);
    RunSplit(m2, 3, 1);
    RunSplit(m1, 3, 5);
    assert RunSpec(r1, 5) == RunSpec(m2, 4);
    assert RunSpec(m0, 9) == RunSpec(m1, 8);
  }
}
