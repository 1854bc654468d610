/**
 * The machine cycle (src/vm.rs): `tick` fetches the word at PC through the
 * MMU, decodes it, advances PC and executes the instruction; `run` ticks while
 * PC has not passed FP, the last code address the loader set.
 *
 * A program may loop forever, so a run here takes a fuel bound: the number of
 * ticks it may make before it stops with `OutOfFuel`. Values printed by OUT
 * are collected in order.
 */
module Vm {
  import opened Wrappers
  import opened Words
  import opened Ops
  import opened Instructions
  import opened Registers
  import opened Memory
  import opened ObjectModules
  import opened Machines
  import opened Control

  /** `tick`: the step taken and the state after it. */
  function TickSpec(s: State): (Step, State)
  {
    var pc := s.regs[PC];
    var (w, s1) := MemRead(s, pc);
    if w.Err? then (Faulted(w.error), s1)
    else
      match Decode(w.value)
      case Err(e) => (Faulted(Undecodable(e)), s1)
      case Ok(ins) => ExecuteSpec(s1.(regs := s1.regs[PC := WrapAdd(pc, 1)]), ins)
  }

  /** How a run ended. */
  datatype RunOutcome =
    | RanOffEnd            // PC passed FP, the loop condition of `run`
    | HaltCalled           // the halt supervisor call
    | Crashed(fault: Fault)
    | OutOfFuel            // the tick bound was used up

  datatype RunResult = RunResult(outcome: RunOutcome, final: State, output: seq<Word>)

  /**
   * `Hypervisor::run` with at most `fuel` ticks, for any tick function: while
   * PC has not passed FP, tick, collect printed values, and stop at a halt or
   * a fault.
   */
  function RunWith(tick: State -> (Step, State), s: State, fuel: nat): RunResult
    decreases fuel
  {
    if s.regs[PC] > s.regs[FP] then RunResult(RanOffEnd, s, [])
    else if fuel == 0 then RunResult(OutOfFuel, s, [])
    else
      var t := tick(s);
      match t.0
      case Continue => RunWith(tick, t.1, fuel - 1)
      case Output(v) => WithOutput([v], RunWith(tick, t.1, fuel - 1))
      case Halted => RunResult(HaltCalled, t.1, [])
      case Faulted(f) => RunResult(Crashed(f), t.1, [])
  }

  /** `Hypervisor::run` with at most `fuel` ticks of this machine. */
  function RunSpec(s: State, fuel: nat): RunResult
  {
    RunWith(TickSpec, s, fuel)
  }

  /** A run result with `before` printed ahead of its own output. */
  function WithOutput(before: seq<Word>, r: RunResult): RunResult
  {
    r.(output := before + r.output)
  }

  /**
   * A tick reads the word at PC (faulting at or past the limit), faults on a
   * word that does not decode, and otherwise executes the instruction with PC
   * already advanced by one and MAR and MBR holding the fetch.
   */
  lemma {:induction false} TickFetchesAtPc(s: State)
    ensures s.regs[PC] >= s.mmu.limit ==> TickSpec(s) == (Faulted(AddressOutOfBounds), s)
    ensures s.regs[PC] < s.mmu.limit ==>
      var w := s.mmu.cells[s.regs[PC]];
      var s1 := s.(mmu := s.mmu.(mar := s.regs[PC], mbr := w));
      && (Decode(w).Err? ==> TickSpec(s) == (Faulted(Undecodable(Decode(w).error)), s1))
      && (Decode(w).Ok? ==>
            TickSpec(s) == ExecuteSpec(s1.(regs := s.regs[PC := WrapAdd(s.regs[PC], 1)]), Decode(w).value))
  {
  }

  /** Unless the instruction jumps, a tick leaves PC one past the word it fetched. */
  lemma {:induction false} TickAdvancesPc(s: State)
    requires s.regs[PC] < s.mmu.limit && Decode(s.mmu.cells[s.regs[PC]]).Ok?
    requires Decode(s.mmu.cells[s.regs[PC]]).value.opcode !in {JUMP, JZER}
    ensures TickSpec(s).1.regs[PC] == WrapAdd(s.regs[PC], 1)
  {
    var w := s.mmu.cells[s.regs[PC]];
    var s1 := s.(mmu := s.mmu.(mar := s.regs[PC], mbr := w));
    ExecuteKeepsPc(s1.(regs := s.regs[PC := WrapAdd(s.regs[PC], 1)]), Decode(w).value);
  }

  /**
   * A jump executes after PC has advanced, so the jump target is what PC ends
   * up holding; `JUMP R0` goes to address 0.
   */
  lemma {:induction false} TickJumpOverridesAdvance(s: State)
    requires s.regs[PC] < s.mmu.limit && Decode(s.mmu.cells[s.regs[PC]]).Ok?
    requires var ins := Decode(s.mmu.cells[s.regs[PC]]).value; ins.opcode == JUMP && ins.rj <= 7
    ensures TickSpec(s).0 == Continue
    ensures TickSpec(s).1.regs[PC] == Read(s.regs, Decode(s.mmu.cells[s.regs[PC]]).value.rj).value
  {
  }

  /** The all-zero word is `NOP`: a tick over it only advances PC and records the fetch. */
  lemma TickNop(s: State)
    requires s.regs[PC] < s.mmu.limit && s.mmu.cells[s.regs[PC]] == 0
    ensures TickSpec(s) == (Continue, State(s.regs[PC := WrapAdd(s.regs[PC], 1)], s.mmu.(mar := s.regs[PC], mbr := 0)))
  {
    assert Decode(0) == Ok(Instruction(NOP, 0, Immediate, 0, 0));
  }

  /** Once PC is past FP the run stops at once, without a tick. */
  lemma RunStopsPastFp(s: State, fuel: nat)
    requires s.regs[PC] > s.regs[FP]
    ensures RunSpec(s, fuel) == RunResult(RanOffEnd, s, [])
  {
  }

  lemma {:induction false} RanOffEndPastFpWith(tick: State -> (Step, State), s: State, fuel: nat)
    requires RunWith(tick, s, fuel).outcome == RanOffEnd
    ensures RunWith(tick, s, fuel).final.regs[PC] > RunWith(tick, s, fuel).final.regs[FP]
    decreases fuel
  {
    if s.regs[PC] <= s.regs[FP] && fuel > 0 {
      RanOffEndPastFpWith(tick, tick(s).1, fuel - 1);
    }
  }

  /** A run that ran off the end stopped in a state whose PC is past FP. */
  lemma RanOffEndPastFp(s: State, fuel: nat)
    requires RunSpec(s, fuel).outcome == RanOffEnd
    ensures RunSpec(s, fuel).final.regs[PC] > RunSpec(s, fuel).final.regs[FP]
  {
    RanOffEndPastFpWith(TickSpec, s, fuel);
  }

  lemma {:induction false} RunWithFuelMonotone(tick: State -> (Step, State), s: State, fuel: nat, extra: nat)
    requires RunWith(tick, s, fuel).outcome != OutOfFuel
    ensures RunWith(tick, s, fuel + extra) == RunWith(tick, s, fuel)
    decreases fuel
  {
    if s.regs[PC] <= s.regs[FP] && fuel > 0 {
      var t := tick(s);
      if t.0.Continue? || t.0.Output? {
        RunWithFuelMonotone(tick, t.1, fuel - 1, extra);
      }
    }
  }

  /** A run that ended for any reason but the fuel ends the same way with more fuel. */
  lemma RunFuelMonotone(s: State, fuel: nat, extra: nat)
    requires RunSpec(s, fuel).outcome != OutOfFuel
    ensures RunSpec(s, fuel + extra) == RunSpec(s, fuel)
  {
    RunWithFuelMonotone(TickSpec, s, fuel, extra);
  }

  /**
   * While PC has not passed FP, one more tick of fuel is one more tick: the
   * run goes on after `Continue` and after an output, which is printed first,
   * and stops after a halt or a fault.
   */
  lemma RunStep(s: State, fuel: nat, step: Step, next: State)
    requires s.regs[PC] <= s.regs[FP] && TickSpec(s) == (step, next)
    ensures step.Continue? ==> RunSpec(s, fuel + 1) == RunSpec(next, fuel)
    ensures step.Output? ==> RunSpec(s, fuel + 1) == WithOutput([step.value], RunSpec(next, fuel))
    ensures step.Halted? ==> RunSpec(s, fuel + 1) == RunResult(HaltCalled, next, [])
    ensures step.Faulted? ==> RunSpec(s, fuel + 1) == RunResult(Crashed(step.fault), next, [])
  {
  }

  class Machine {
    const registers: RegisterFile
    const mmu: MMU

    predicate Valid()
      reads this, mmu
    {
      mmu.Valid()
    }

    function View(): State
      requires Valid()
      reads this, registers, mmu, mmu.backing
    {
      State(registers.View(), mmu.View())
    }

    /** `Machine::new`: zeroed registers and `memorySize` zero words. */
    constructor (memorySize: USize)
      ensures Valid() && fresh(registers) && fresh(mmu) && fresh(mmu.backing)
      ensures View() == NewSpec(memorySize)
    {
      mmu := new MMU(memorySize);
      registers := new RegisterFile();
    }

    /** `load_object_module`: false where the source panics. */
    method LoadObjectModule(om: ObjectModule) returns (ok: bool)
      requires Valid()
      modifies registers, mmu.backing
      ensures Valid() && (ok, View()) == LoadSpec(old(View()), om)
    {
      ghost var s := View();
      ok := mmu.CopyIntoSlice(om.code.start, USizeSucc(om.code.end), om.code.instructions);
      if !ok {
        assert View() == s;
        return;
      }
      registers.fp := TruncateToWord(om.code.end);
      ghost var s1 := View();
      assert s1.mmu.cells == SliceCopy(s.mmu.cells, om.code.start, USizeSucc(om.code.end), om.code.instructions).value;
      assert s1.regs == s.regs[FP := TruncateToWord(om.code.end)];
      ok := mmu.CopyIntoSlice(om.data.start, USizeSucc(om.data.end), om.data.data);
      if !ok {
        assert View() == s1;
        return;
      }
      registers.sp := TruncateToWord(om.data.end);
      assert View().mmu == s1.mmu.(cells := SliceCopy(s1.mmu.cells, om.data.start, USizeSucc(om.data.end), om.data.data).value);
      assert View().regs == s1.regs[SP := TruncateToWord(om.data.end)];
    }

    /** `fetch_value`. */
    method FetchValue(ins: Instruction) returns (r: Result<Word, Fault>)
      requires Valid()
      modifies mmu
      ensures Valid() && (r, View()) == FetchValueSpec(old(View()), ins)
    {
      var base := registers.Get(ins.ri);
      if base.None? {
        return Err(InvalidRegister);
      }
      var ea := WrapAdd(base.value, ins.addr);
      match ins.mode
      case Immediate =>
        r := Ok(ea);
      case Direct =>
        var v := mmu.Read(ea);
        r := if v.None? then Err(AddressOutOfBounds) else Ok(v.value);
      case Indirect =>
        var p := mmu.Read(ea);
        if p.None? {
          return Err(AddressOutOfBounds);
        }
        var v := mmu.Read(p.value);
        r := if v.None? then Err(AddressOutOfBounds) else Ok(v.value);
    }

    /** `registers.set(rj, value)` inside `execute`. */
    method SetRegister(rj: Byte, value: Word) returns (step: Step)
      requires Valid()
      modifies registers
      ensures Valid() && (step, View()) == Control.SetRegister(old(View()), rj, value)
    {
      var ok := registers.Set(rj, value);
      step := if ok then Continue else Faulted(InvalidRegister);
    }

    /** The ADD, SUB, MUL and DIV arms of `execute`. */
    method Arithmetic(ins: Instruction) returns (step: Step)
      requires Valid() && ins.opcode in {ADD, SUB, MUL, DIV}
      modifies registers, mmu
      ensures Valid() && (step, View()) == Control.Arithmetic(old(View()), ins)
    {
      var a := FetchValue(ins);
      if a.Err? {
        return Faulted(a.error);
      }
      var b := registers.Get(ins.rj);
      if b.None? {
        return Faulted(InvalidRegister);
      }
      match ins.opcode
      case ADD => step := SetRegister(ins.rj, WrapAdd(b.value, a.value));
      case SUB => step := SetRegister(ins.rj, WrapSub(b.value, a.value));
      case MUL => step := SetRegister(ins.rj, WrapMul(b.value, a.value));
      case DIV =>
        if a.value == 0 {
          return Faulted(DivisionByZero);
        }
        step := SetRegister(ins.rj, b.value / a.value);
    }

    /** `Control::execute`. */
    method Execute(ins: Instruction) returns (step: Step)
      requires Valid()
      modifies registers, mmu, mmu.backing
      ensures Valid() && (step, View()) == ExecuteSpec(old(View()), ins)
    {
      match ins.opcode
      case NOP =>
        step := Continue;
      case IN =>
        step := Faulted(Unimplemented);
      case STORE =>
        var source := registers.Get(ins.rj);
        if source.None? {
          return Faulted(InvalidRegister);
        }
        var dest := FetchValue(ins);
        if dest.Err? {
          return Faulted(dest.error);
        }
        var ok := mmu.Write(dest.value, source.value);
        step := if ok then Continue else Faulted(AddressOutOfBounds);
      case LOAD =>
        var v := FetchValue(ins);
        if v.Err? {
          return Faulted(v.error);
        }
        step := SetRegister(ins.rj, v.value);
      case OUT =>
        var device := FetchValue(ins);
        if device.Err? {
          return Faulted(device.error);
        }
        if device.value != CRT && device.value != KEYBOARD {
          return Faulted(NoSuchDevice);
        }
        var x := registers.Get(ins.rj);
        if x.None? {
          return Faulted(InvalidRegister);
        }
        step := if device.value == CRT then Output(x.value) else Faulted(InvalidDevice);
      case JZER =>
        var x := registers.Get(ins.rj);
        if x.None? {
          return Faulted(InvalidRegister);
        }
        if x.value == 0 {
          var target := FetchValue(ins);
          if target.Err? {
            return Faulted(target.error);
          }
          ghost var fetched := View();
          registers.pc := target.value;
          assert View().regs == fetched.regs[PC := target.value];
        }
        step := Continue;
      case JUMP =>
        var x := registers.Get(ins.rj);
        if x.None? {
          return Faulted(InvalidRegister);
        }
        registers.pc := x.value;
        assert View().regs == old(View()).regs[PC := x.value];
        step := Continue;
      case ADD =>
        step := Arithmetic(ins);
      case SUB =>
        step := Arithmetic(ins);
      case MUL =>
        step := Arithmetic(ins);
      case DIV =>
        step := Arithmetic(ins);
      case SVC =>
        var service := FetchValue(ins);
        if service.Err? {
          return Faulted(service.error);
        }
        step := if service.value == HALT_SERVICE then Halted else Faulted(UnknownService);
      case _ =>
        step := Faulted(NoHandler(ins.opcode));
    }

    /** `tick`. */
    method Tick() returns (step: Step)
      requires Valid()
      modifies registers, mmu, mmu.backing
      ensures Valid() && (step, View()) == TickSpec(old(View()))
    {
      var w := mmu.Read(registers.pc);
      if w.None? {
        return Faulted(AddressOutOfBounds);
      }
      var decoded := Decode(w.value);
      if decoded.Err? {
        return Faulted(Undecodable(decoded.error));
      }
      ghost var fetched := View();
      registers.pc := WrapAdd(registers.pc, 1);
      assert View() == fetched.(regs := fetched.regs[PC := WrapAdd(fetched.regs[PC], 1)]);
      step := Execute(decoded.value);
    }

    /** `Hypervisor::run`, stopping after `fuel` ticks at most. */
    method Run(fuel: nat) returns (outcome: RunOutcome, output: seq<Word>)
      requires Valid()
      modifies registers, mmu, mmu.backing
      ensures Valid() && RunSpec(old(View()), fuel) == RunResult(outcome, View(), output)
    {
      var remaining: nat := fuel;
      output := [];
      while registers.pc <= registers.fp
        invariant Valid() && remaining <= fuel
        invariant RunSpec(old(View()), fuel) == WithOutput(output, RunSpec(View(), remaining))
        decreases remaining
      {
        if remaining == 0 {
          return OutOfFuel, output;
        }
        ghost var before := View();
        var step := Tick();
        remaining := remaining - 1;
        RunStep(before, remaining, step, View());
        match step
        case Continue =>
        case Output(v) =>
          assert output + ([v] + RunSpec(View(), remaining).output) == (output + [v]) + RunSpec(View(), remaining).output;
          output := output + [v];
        case Halted =>
          return HaltCalled, output;
        case Faulted(f) =>
          return Crashed(f), output;
      }
      outcome := RanOffEnd;
    }
  }
}
