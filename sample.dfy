/**
 * A client of the CPU object: it loads the sample program by writing the
 * public registers and memory, runs it, and reads back register V0.
 */
module Sample {
  import opened Semantics
  import opened Cpu
  import opened Properties

  method RunSampleProgram() returns (status: Status, v0: bv8)
    ensures status == Halted && v0 == 45
  {
    var cpu := new CPU();
    cpu.registers[0] := 5;
    cpu.registers[1] := 10;
    cpu.memory[0x000] := 0x21;
    cpu.memory[0x001] := 0x00;
    cpu.memory[0x002] := 0x21;
    cpu.memory[0x003] := 0x00;
    cpu.memory[0x004] := 0x00;
    cpu.memory[0x005] := 0x00;
    cpu.memory[0x100] := 0x80;
    cpu.memory[0x101] := 0x14;
    cpu.memory[0x102] := 0x80;
    cpu.memory[0x103] := 0x14;
    cpu.memory[0x104] := 0x00;
    cpu.memory[0x105] := 0xEE;
    assert cpu.State() == SampleMachine();
    status := cpu.Run(9);
    v0 := cpu.registers[0];
    SampleProgramHalts();
  }
}
