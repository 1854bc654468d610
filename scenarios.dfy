/**
 * A whole program, from the object module to the end of the run: the loader,
 * the decoder, three instructions and the run loop working together.
 */
module Scenarios {
  import opened Wrappers
  import opened Words
  import opened Registers
  import opened Memory
  import opened Instructions
  import opened Ops
  import opened ObjectModules
  import opened Machines
  import opened Control
  import opened Vm

  /** `LOAD R1, =5`, `OUT R1, =CRT`, `SVC R0, =HALT` at addresses 0..2, with an empty data block after them. */
  const HELLO: ObjectModule :=
    ObjectModule(CodeBlock(0, 2, [0x0220_0005, 0x0420_0000, 0x7000_000B]), DataBlock(3, 2, []), map[])

  /** Memory after the load: the three code words, then zeros. */
  const CODE: seq<Word> := [0x0220_0005, 0x0420_0000, 0x7000_000B, 0, 0, 0, 0, 0]

  /** The memory and registers right after loading `HELLO` into a fresh eight-word machine. */
  const LOADED: State :=
    State([0, 0, 0, 0, 0, 0, 2, 2, 0, 0, 0, 0], MmuState(0, 0, 8, CODE))

  /** Loading succeeds, and FP and SP both end at 2 because the data block is empty. */
  lemma HelloLoads()
    ensures LoadSpec(NewSpec(8), HELLO) == (true, LOADED)
  {
    var s := NewSpec(8);
    LoadPlacesBlocks(s, HELLO);
    var s' := LoadSpec(s, HELLO).1;
    assert forall a :: 0 <= a < 8 ==> s'.mmu.cells[a] == CODE[a] by {
      forall a | 0 <= a < 8
        ensures s'.mmu.cells[a] == CODE[a]
      {
        if a < 3 {
          assert s'.mmu.cells[a] == HELLO.code.instructions[a];
        } else {
          assert s'.mmu.cells[a] == s.mmu.cells[a];
        }
      }
    }
    assert s'.mmu.cells == CODE;
    assert forall k :: 0 <= k < 12 ==> s'.regs[k] == LOADED.regs[k];
    assert s'.regs == LOADED.regs;
  }

  /** The three code words decode to the instructions they are written as. */
  lemma LoadDecodes()
    ensures Decode(0x0220_0005) == Ok(Instruction(LOAD, 1, Immediate, 0, 5))
  {
    assert OpcodeField(0x0220_0005) == 0x02 && RjField(0x0220_0005) == 1 && ModeField(0x0220_0005) == 0;
    assert RiField(0x0220_0005) == 0 && AddrField(0x0220_0005) == 5;
  }

  lemma OutDecodes()
    ensures Decode(0x0420_0000) == Ok(Instruction(OUT, 1, Immediate, 0, 0))
  {
    assert OpcodeField(0x0420_0000) == 0x04 && RjField(0x0420_0000) == 1 && ModeField(0x0420_0000) == 0;
    assert RiField(0x0420_0000) == 0 && AddrField(0x0420_0000) == 0;
  }

  lemma SvcDecodes()
    ensures Decode(0x7000_000B) == Ok(Instruction(SVC, 0, Immediate, 0, 11))
  {
    assert OpcodeField(0x7000_000B) == 0x70 && RjField(0x7000_000B) == 0 && ModeField(0x7000_000B) == 0;
    assert RiField(0x7000_000B) == 0 && AddrField(0x7000_000B) == 11;
  }

  /** The state after each tick: PC advanced, R1 loaded, MAR and MBR holding the last fetch. */
  const TICKED1: State := State([0, 5, 0, 0, 0, 0, 2, 2, 1, 0, 0, 0], MmuState(0, 0x0220_0005, 8, CODE))
  const TICKED2: State := State([0, 5, 0, 0, 0, 0, 2, 2, 2, 0, 0, 0], MmuState(1, 0x0420_0000, 8, CODE))
  const TICKED3: State := State([0, 5, 0, 0, 0, 0, 2, 2, 3, 0, 0, 0], MmuState(2, 0x7000_000B, 8, CODE))

  /** LOAD puts 5 into R1. */
  lemma FirstTick()
    ensures TickSpec(LOADED) == (Continue, TICKED1)
  {
    LoadDecodes();
    var s1 := LOADED.(mmu := LOADED.mmu.(mar := 0, mbr := 0x0220_0005));
    assert MemRead(LOADED, 0) == (Ok(0x0220_0005), s1);
    var s2 := s1.(regs := s1.regs[PC := 1]);
    assert FetchValueSpec(s2, Instruction(LOAD, 1, Immediate, 0, 5)) == (Ok(5), s2);
    assert s2.regs[1 := 5] == TICKED1.regs;
  }

  /** OUT prints R1 on the CRT. */
  lemma SecondTick()
    ensures TickSpec(TICKED1) == (Output(5), TICKED2)
  {
    OutDecodes();
    var s1 := TICKED1.(mmu := TICKED1.mmu.(mar := 1, mbr := 0x0420_0000));
    assert MemRead(TICKED1, 1) == (Ok(0x0420_0000), s1);
    var s2 := s1.(regs := s1.regs[PC := 2]);
    assert s2 == TICKED2;
    assert FetchValueSpec(s2, Instruction(OUT, 1, Immediate, 0, 0)) == (Ok(0), s2);
  }

  /** SVC with the halt service halts. */
  lemma ThirdTick()
    ensures TickSpec(TICKED2) == (Halted, TICKED3)
  {
    SvcDecodes();
    var s1 := TICKED2.(mmu := TICKED2.mmu.(mar := 2, mbr := 0x7000_000B));
    assert MemRead(TICKED2, 2) == (Ok(0x7000_000B), s1);
    var s2 := s1.(regs := s1.regs[PC := 3]);
    assert s2 == TICKED3;
    assert FetchValueSpec(s2, Instruction(SVC, 0, Immediate, 0, 11)) == (Ok(11), s2);
  }

  /** The run from each intermediate state, given fuel for the ticks left. */
  lemma RunFromTicked2(fuel: nat)
    ensures RunSpec(TICKED2, fuel + 1) == RunResult(HaltCalled, TICKED3, [])
  {
    ThirdTick();
    RunStep(TICKED2, fuel, Halted, TICKED3);
  }

  lemma RunFromTicked1(fuel: nat)
    ensures RunSpec(TICKED1, fuel + 2) == RunResult(HaltCalled, TICKED3, [5])
  {
    SecondTick();
    RunStep(TICKED1, fuel + 1, Output(5), TICKED2);
    RunFromTicked2(fuel);
  }

  /**
   * Once loaded, the program prints 5 and halts after three ticks, with R1 = 5,
   * PC = 3 and FP = SP = 2, given fuel for at least three ticks.
   */
  lemma HelloRun(extra: nat)
    ensures RunSpec(LOADED, extra + 3) == RunResult(HaltCalled, TICKED3, [5])
  {
    FirstTick();
    RunStep(LOADED, extra + 2, Continue, TICKED1);
    RunFromTicked1(extra);
  }
}
